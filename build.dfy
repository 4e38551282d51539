/** `build_schemes` (src/main.rs): check that the source directories exist,
    load the schemes and the templates, then for every template and, inside,
    for every scheme: create the template's output directory, render, and
    write the file. The file system is abstracted into recorded effects whose
    outcomes are inputs. */
module Build {
  import opened Wrappers
  import opened Strings
  import opened Schemes
  import opened Render
  import opened Templates

  /** The console lines of `build_schemes`, each printed through `error` or
      `success`; `Text` gives the words. */
  datatype Message =
    | MissingSources
    | DirFailed(dir: string)
    | WriteFailed(file: string)
    | Built(file: string)

  /** The fixed words of a line; the file it is about follows them. The
      missing-sources line is the single sentence of src/main.rs:56, written
      in two pieces only because the solver cannot index into a string
      literal this long, and `WordsShape` needs its first letter. */
  function Words(m: Message): string {
    match m
      case MissingSources => "Required " + "sources not found in current directory, consider running an update"
      case DirFailed(_) => "Failed to recursively create directory "
      case WriteFailed(_) => "Failed to build/write to "
      case Built(_) => "Built "
  }

  /** The file a message is about, if any. */
  function Subject(m: Message): string {
    match m
      case MissingSources => ""
      case DirFailed(dir) => dir
      case WriteFailed(file) => file
      case Built(file) => file
  }

  function Text(m: Message): string {
    Words(m) + Subject(m)
  }

  /** The words of each kind of line differ in their first character or, for
      the two failures, in their eleventh. */
  lemma WordsShape(m: Message)
    ensures |Words(m)| > 0
    ensures Words(m)[0] == (if m.Built? then 'B' else if m.MissingSources? then 'R' else 'F')
    ensures m.DirFailed? ==> |Words(m)| > 10 && Words(m)[10] == 'r'
    ensures m.WriteFailed? ==> |Words(m)| > 10 && Words(m)[10] == 'b'
  {
  }

  /** A console line determines the message it reports: no two outcomes of the
      build print the same line. */
  lemma TextDetermines(m1: Message, m2: Message)
    requires Text(m1) == Text(m2)
    ensures m1 == m2
  {
    WordsShape(m1);
    WordsShape(m2);
    PrefixedLine(Words(m1), Subject(m1));
    PrefixedLine(Words(m2), Subject(m2));
  }

  /** A line made of words and a file starts with the words. */
  lemma PrefixedLine(words: string, file: string)
    ensures (words + file)[..|words|] == words && (words + file)[|words|..] == file
  {
  }

  /** What the build does to the outside world, in order: directory
      creations, file writes, and the `error` and `success` lines. */
  datatype Effect =
    | CreateDir(path: string)
    | Write(path: string, contents: string)
    | Error(message: Message)
    | Success(message: Message)

  /** The outcomes the environment chooses for one (template, scheme) pair:
      whether `create_dir_all` and `write` succeed, and the iteration order of
      the `HashMap` that `render_template` builds for it. */
  datatype PairIo = PairIo(dirCreated: bool, written: bool, order: seq<Slot>)

  /** The effects of a run, and whether it reached its end; a panic stops the
      process with `finished` false, keeping the effects already made. */
  datatype Run = Run(log: seq<Effect>, finished: bool)

  /** How one template text is rendered with one scheme and one slot visit
      order; the build uses `RenderFrom`. The loop's properties below hold for
      every renderer. */
  type Renderer = (string, Scheme, seq<Slot>) -> Option<string>

  /** `format!("{}/{}{}", t.output_path, s.slug, t.extension)`. */
  function FilePath(t: Template, s: Scheme): (path: string)
    ensures StartsWith(path, t.outputPath + "/")
  {
    var dir := t.outputPath + "/";
    assert (dir + s.slug + t.extension)[..|dir|] == dir;
    dir + s.slug + t.extension
  }

  /** `create_dir_all(output_path)` and, when it fails, its error line. */
  function DirEffects(t: Template, io: PairIo): seq<Effect> {
    [CreateDir(t.outputPath)]
      + (if io.dirCreated then [] else [Error(DirFailed(t.outputPath))])
  }

  /** The body of the inner loop for one pair. A failed directory creation is
      reported and the loop goes on; a failed render panics. */
  function PairRun(t: Template, s: Scheme, io: PairIo, render: Renderer): (r: Run)
    ensures |r.log| > 0 && r.log[0] == CreateDir(t.outputPath)
  {
    var dir := DirEffects(t, io);
    match render(t.contents, s, io.order)
      case None => Run(dir, false)
      case Some(contents) =>
        var path := FilePath(t, s);
        Run(dir + [Write(path, contents), if io.written then Success(Built(path)) else Error(WriteFailed(path))], true)
  }

  /** `a` followed by `b`, unless `a` stopped. */
  function Then(a: Run, b: Run): Run {
    if !a.finished then a else Run(a.log + b.log, b.finished)
  }

  /** The inner loop over the schemes for template number `i`. */
  function RowRun(t: Template, i: nat, schemes: seq<Scheme>, io: (nat, nat) -> PairIo, render: Renderer): Run
    decreases |schemes|
  {
    if |schemes| == 0 then Run([], true)
    else Then(RowRun(t, i, schemes[..|schemes| - 1], io, render), PairRun(t, schemes[|schemes| - 1], io(i, |schemes| - 1), render))
  }

  /** The outer loop over the templates. */
  function GridRun(templates: seq<Template>, schemes: seq<Scheme>, io: (nat, nat) -> PairIo, render: Renderer): Run
    decreases |templates|
  {
    if |templates| == 0 then Run([], true)
    else Then(GridRun(templates[..|templates| - 1], schemes, io, render),
              RowRun(templates[|templates| - 1], |templates| - 1, schemes, io, render))
  }

  /** `build_schemes`. `sourcesExist` and `templatesExist` are the results of
      the `metadata` checks of "sources" and "templates"; the schemes are then
      read from "schemes", as the source does. */
  function BuildSpec(sourcesExist: bool, templatesExist: bool,
                     schemesRoot: Option<seq<Option<seq<SchemeFile>>>>, templatesRoot: Option<seq<ProgramDir>>,
                     io: (nat, nat) -> PairIo): (r: Run)
    ensures forall e :: e in r.log && e.Write? ==> StartsWith(e.path, "output/")
  {
    if !sourcesExist || !templatesExist then Run([Error(MissingSources)], true)
    else match GetSchemesSpec(schemesRoot)
      case None => Run([], false)
      case Some(schemes) =>
        match GetTemplatesSpec(templatesRoot)
          case None => Run([], false)
          case Some(templates) =>
            TemplatesUnderOutput(templatesRoot.value);
            GridWritesUnderOutput(templates, schemes, io, RenderFrom);
            GridRun(templates, schemes, io, RenderFrom)
  }

  /** A pair writes only its own file, and only when it renders. */
  lemma PairWritesInside(t: Template, s: Scheme, io: PairIo, render: Renderer)
    ensures var r := PairRun(t, s, io, render);
      forall e :: e in r.log && e.Write? ==> r.finished && e.path == FilePath(t, s)
  {
  }

  /** Every file a row writes lies in its template's output directory. */
  lemma {:induction false} RowWritesInside(t: Template, i: nat, schemes: seq<Scheme>, io: (nat, nat) -> PairIo, render: Renderer)
    ensures forall e :: e in RowRun(t, i, schemes, io, render).log && e.Write? ==> StartsWith(e.path, t.outputPath + "/")
    decreases |schemes|
  {
    if |schemes| > 0 {
      RowWritesInside(t, i, schemes[..|schemes| - 1], io, render);
      PairWritesInside(t, schemes[|schemes| - 1], io(i, |schemes| - 1), render);
    }
  }

  /** When every template writes below `output/`, so does every file of the
      build. */
  lemma {:induction false} GridWritesUnderOutput(templates: seq<Template>, schemes: seq<Scheme>, io: (nat, nat) -> PairIo, render: Renderer)
    requires forall t :: t in templates ==> StartsWith(t.outputPath, "output/")
    ensures forall e :: e in GridRun(templates, schemes, io, render).log && e.Write? ==> StartsWith(e.path, "output/")
    decreases |templates|
  {
    if |templates| > 0 {
      var n := |templates| - 1;
      var t := templates[n];
      GridWritesUnderOutput(templates[..n], schemes, io, render);
      RowWritesInside(t, n, schemes, io, render);
      StartsWithAppend(t.outputPath, "/", "output/");
      forall e | e in RowRun(t, n, schemes, io, render).log && e.Write?
        ensures StartsWith(e.path, "output/")
      {
        StartsWithPrefix(e.path, t.outputPath + "/", "output/");
      }
    }
  }

  method BuildSchemes(sourcesExist: bool, templatesExist: bool,
                      schemesRoot: Option<seq<Option<seq<SchemeFile>>>>, templatesRoot: Option<seq<ProgramDir>>,
                      io: (nat, nat) -> PairIo) returns (run: Run)
    ensures run == BuildSpec(sourcesExist, templatesExist, schemesRoot, templatesRoot, io)
  {
    if !sourcesExist || !templatesExist {
      return Run([Error(MissingSources)], true);
    }
    var schemes := GetSchemes(schemesRoot);
    if schemes.None? {
      return Run([], false);
    }
    var templates := GetTemplates(templatesRoot);
    if templates.None? {
      return Run([], false);
    }
    var ts, ss := templates.value, schemes.value;
    var log: seq<Effect> := [];
    var i := 0;
    while i < |ts|
      invariant 0 <= i <= |ts|
      invariant GridRun(ts[..i], ss, io, RenderFrom) == Run(log, true)
    {
      var rowLog, finished := BuildRow(ts[i], i, ss, io);
      GridStep(ts, ss, io, RenderFrom, i);
      log := log + rowLog;
      if !finished {
        GridStaysFailed(ts, ss, io, RenderFrom, i + 1);
        return Run(log, false);
      }
      i := i + 1;
    }
    assert ts[..i] == ts;
    return Run(log, true);
  }

  /** The inner loop of `build_schemes` for template number `i`: every
      scheme in turn, stopping at the first panic. */
  method BuildRow(t: Template, i: nat, schemes: seq<Scheme>, io: (nat, nat) -> PairIo)
    returns (log: seq<Effect>, finished: bool)
    ensures Run(log, finished) == RowRun(t, i, schemes, io, RenderFrom)
  {
    log := [];
    var j := 0;
    while j < |schemes|
      invariant 0 <= j <= |schemes|
      invariant RowRun(t, i, schemes[..j], io, RenderFrom) == Run(log, true)
    {
      var effects, ok := BuildPair(t, schemes[j], io(i, j));
      RowStep(t, i, schemes, io, RenderFrom, j);
      log := log + effects;
      if !ok {
        RowStaysFailed(t, i, schemes, io, RenderFrom, j + 1);
        return log, false;
      }
      j := j + 1;
    }
    assert schemes[..j] == schemes;
    return log, true;
  }

  /** One turn of the inner loop: create the output directory, render the
      template with the scheme, write the file. */
  method BuildPair(t: Template, s: Scheme, p: PairIo) returns (effects: seq<Effect>, finished: bool)
    ensures Run(effects, finished) == PairRun(t, s, p, RenderFrom)
  {
    effects := [CreateDir(t.outputPath)];
    if !p.dirCreated {
      effects := effects + [Error(DirFailed(t.outputPath))];
    }
    var filePath := t.outputPath + "/" + s.slug + t.extension;
    var contents := RenderTemplate(t.contents, s, p.order);
    if contents.None? {
      return effects, false;
    }
    effects := effects + [Write(filePath, contents.value)];
    if p.written {
      effects := effects + [Success(Built(filePath))];
    } else {
      effects := effects + [Error(WriteFailed(filePath))];
    }
    return effects, true;
  }

  /** One more turn of the inner loop. */
  lemma RowStep(t: Template, i: nat, schemes: seq<Scheme>, io: (nat, nat) -> PairIo, render: Renderer, j: nat)
    requires j < |schemes|
    ensures RowRun(t, i, schemes[..j + 1], io, render)
      == Then(RowRun(t, i, schemes[..j], io, render), PairRun(t, schemes[j], io(i, j), render))
  {
    assert schemes[..j + 1][..j] == schemes[..j];
  }

  /** One more turn of the outer loop. */
  lemma GridStep(templates: seq<Template>, schemes: seq<Scheme>, io: (nat, nat) -> PairIo, render: Renderer, i: nat)
    requires i < |templates|
    ensures GridRun(templates[..i + 1], schemes, io, render)
      == Then(GridRun(templates[..i], schemes, io, render), RowRun(templates[i], i, schemes, io, render))
  {
    assert templates[..i + 1][..i] == templates[..i];
  }

  lemma {:induction false} RowStaysFailed(t: Template, i: nat, schemes: seq<Scheme>, io: (nat, nat) -> PairIo,
                                          render: Renderer, n: nat)
    requires n <= |schemes| && !RowRun(t, i, schemes[..n], io, render).finished
    ensures RowRun(t, i, schemes, io, render) == RowRun(t, i, schemes[..n], io, render)
    decreases |schemes| - n
  {
    if n < |schemes| {
      assert schemes[..n + 1][..n] == schemes[..n];
      RowStaysFailed(t, i, schemes, io, render, n + 1);
    } else {
      assert schemes[..n] == schemes;
    }
  }

  lemma {:induction false} GridStaysFailed(templates: seq<Template>, schemes: seq<Scheme>, io: (nat, nat) -> PairIo,
                                           render: Renderer, n: nat)
    requires n <= |templates| && !GridRun(templates[..n], schemes, io, render).finished
    ensures GridRun(templates, schemes, io, render) == GridRun(templates[..n], schemes, io, render)
    decreases |templates| - n
  {
    if n < |templates| {
      assert templates[..n + 1][..n] == templates[..n];
      GridStaysFailed(templates, schemes, io, render, n + 1);
    } else {
      assert templates[..n] == templates;
    }
  }

  // ---------------------------------------------------------------------------
  // Properties of the build

  /** The file writes of a log, in order. */
  function Writes(log: seq<Effect>): seq<Effect>
    decreases |log|
  {
    if |log| == 0 then []
    else Writes(log[..|log| - 1]) + (if log[|log| - 1].Write? then [log[|log| - 1]] else [])
  }

  lemma {:induction false} WritesConcat(a: seq<Effect>, b: seq<Effect>)
    ensures Writes(a + b) == Writes(a) + Writes(b)
    decreases |b|
  {
    if |b| == 0 {
      assert a + b == a;
    } else {
      assert (a + b)[..|a + b| - 1] == a + b[..|b| - 1];
      WritesConcat(a, b[..|b| - 1]);
    }
  }

  /** Creating the output directory writes no file, whether it succeeds or not. */
  lemma DirWritesNothing(t: Template, io: PairIo)
    ensures Writes(DirEffects(t, io)) == []
  {
    var dir := DirEffects(t, io);
    if io.dirCreated {
      assert Writes(dir) == Writes([]) + [];
    } else {
      assert dir[..1] == [CreateDir(t.outputPath)];
      assert Writes(dir[..1]) == Writes([]) + [];
    }
  }

  /** A pair goes on exactly when it renders; it then writes once, to its file
      path, the rendered text, whatever the outcome of the directory creation
      and of the write; a pair that panics writes nothing. */
  lemma PairWrites(t: Template, s: Scheme, io: PairIo, render: Renderer)
    ensures PairRun(t, s, io, render).finished <==> render(t.contents, s, io.order).Some?
    ensures Writes(PairRun(t, s, io, render).log) ==
      if render(t.contents, s, io.order).Some?
      then [Write(FilePath(t, s), render(t.contents, s, io.order).value)]
      else []
  {
    var dir := DirEffects(t, io);
    DirWritesNothing(t, io);
    if render(t.contents, s, io.order).Some? {
      var path := FilePath(t, s);
      var w := Write(path, render(t.contents, s, io.order).value);
      var last := if io.written then Success(Built(path)) else Error(WriteFailed(path));
      WritesConcat(dir, [w, last]);
      assert [w, last][..1] == [w];
      assert Writes([w]) == Writes([]) + [w];
    }
  }

  /** The row of template `i` finishes exactly when every scheme renders. */
  lemma {:induction false} RowFinishesIff(t: Template, i: nat, schemes: seq<Scheme>, io: (nat, nat) -> PairIo, render: Renderer)
    ensures RowRun(t, i, schemes, io, render).finished <==>
      forall j :: 0 <= j < |schemes| ==> render(t.contents, schemes[j], io(i, j).order).Some?
    decreases |schemes|
  {
    if |schemes| > 0 {
      var n := |schemes| - 1;
      var init := schemes[..n];
      RowFinishesIff(t, i, init, io, render);
      PairWrites(t, schemes[n], io(i, n), render);
      assert forall j :: 0 <= j < n ==> init[j] == schemes[j];
    }
  }

  /** A finished row writes to `FilePath(t, schemes[j])` for each scheme `j`,
      in order. */
  lemma {:induction false} RowWrites(t: Template, i: nat, schemes: seq<Scheme>, io: (nat, nat) -> PairIo, render: Renderer)
    requires RowRun(t, i, schemes, io, render).finished
    ensures |Writes(RowRun(t, i, schemes, io, render).log)| == |schemes|
    ensures forall j :: 0 <= j < |schemes| ==>
      && render(t.contents, schemes[j], io(i, j).order).Some?
      && Writes(RowRun(t, i, schemes, io, render).log)[j]
           == Write(FilePath(t, schemes[j]), render(t.contents, schemes[j], io(i, j).order).value)
    decreases |schemes|
  {
    if |schemes| > 0 {
      var n := |schemes| - 1;
      var init, s := schemes[..n], schemes[n];
      var prev := RowRun(t, i, init, io, render);
      var pair := PairRun(t, s, io(i, n), render);
      assert prev.finished && pair.finished && render(t.contents, s, io(i, n).order).Some?;
      var v := render(t.contents, s, io(i, n).order).value;
      assert Writes(RowRun(t, i, schemes, io, render).log) == Writes(prev.log) + [Write(FilePath(t, s), v)] by {
        PairWrites(t, s, io(i, n), render);
        WritesConcat(prev.log, pair.log);
      }
      assert schemes == init + [s];
      RowWrites(t, i, init, io, render);
      RowWritesSnoc(t, i, init, s, io, render, Writes(prev.log), v);
    }
  }

  /** Appending one scheme's write to the writes of a row prefix. */
  lemma RowWritesSnoc(t: Template, i: nat, init: seq<Scheme>, s: Scheme, io: (nat, nat) -> PairIo, render: Renderer,
                      prevWrites: seq<Effect>, v: string)
    requires |prevWrites| == |init|
    requires forall j :: 0 <= j < |init| ==>
      && render(t.contents, init[j], io(i, j).order).Some?
      && prevWrites[j] == Write(FilePath(t, init[j]), render(t.contents, init[j], io(i, j).order).value)
    requires render(t.contents, s, io(i, |init|).order) == Some(v)
    ensures var schemes, writes := init + [s], prevWrites + [Write(FilePath(t, s), v)];
      && |writes| == |schemes|
      && forall j :: 0 <= j < |schemes| ==>
        && render(t.contents, schemes[j], io(i, j).order).Some?
        && writes[j] == Write(FilePath(t, schemes[j]), render(t.contents, schemes[j], io(i, j).order).value)
  {
  }

  /** Entry `i * n + j` of `a + b`, where `a` holds `m` rows of `n`. */
  lemma GridIndex(a: seq<Effect>, b: seq<Effect>, m: nat, n: nat, i: nat, j: nat)
    requires |a| == m * n && |b| == n && i <= m && j < n
    ensures 0 <= i * n + j < |a + b|
    ensures i < m ==> i * n + j < |a| && (a + b)[i * n + j] == a[i * n + j]
    ensures i == m ==> (a + b)[i * n + j] == b[j]
  {
    if i < m {
      MulSucc(i, n);
      MulMonotone(i + 1, m, n);
    }
  }

  lemma MulSucc(m: nat, n: nat)
    ensures m * n + n == (m + 1) * n
  {
  }

  lemma MulMonotone(a: nat, b: nat, n: nat)
    requires a <= b
    ensures a * n <= b * n
  {
  }

  /** The whole loop finishes exactly when every pair renders. */
  lemma {:induction false} GridFinishesIff(templates: seq<Template>, schemes: seq<Scheme>, io: (nat, nat) -> PairIo, render: Renderer)
    ensures GridRun(templates, schemes, io, render).finished <==>
      forall i, j :: 0 <= i < |templates| && 0 <= j < |schemes| ==>
        render(templates[i].contents, schemes[j], io(i, j).order).Some?
    decreases |templates|
  {
    if |templates| > 0 {
      var m := |templates| - 1;
      var init := templates[..m];
      GridFinishesIff(init, schemes, io, render);
      RowFinishesIff(templates[m], m, schemes, io, render);
      assert forall i :: 0 <= i < m ==> init[i] == templates[i];
    }
  }

  /** A finished loop writes |templates| * |schemes| files, template-major:
      write number `i * |schemes| + j` is scheme `j` rendered with template
      `i`, at `FilePath(templates[i], schemes[j])`. */
  lemma {:induction false} GridWrites(templates: seq<Template>, schemes: seq<Scheme>, io: (nat, nat) -> PairIo, render: Renderer)
    requires GridRun(templates, schemes, io, render).finished
    ensures |Writes(GridRun(templates, schemes, io, render).log)| == |templates| * |schemes|
    ensures forall i, j :: 0 <= i < |templates| && 0 <= j < |schemes| ==>
      && render(templates[i].contents, schemes[j], io(i, j).order).Some?
      && i * |schemes| + j < |Writes(GridRun(templates, schemes, io, render).log)|
      && Writes(GridRun(templates, schemes, io, render).log)[i * |schemes| + j]
           == Write(FilePath(templates[i], schemes[j]),
                    render(templates[i].contents, schemes[j], io(i, j).order).value)
    decreases |templates|
  {
    if |templates| > 0 {
      var m := |templates| - 1;
      var init, t := templates[..m], templates[m];
      var prev := GridRun(init, schemes, io, render);
      var row := RowRun(t, m, schemes, io, render);
      assert prev.finished && row.finished;
      var all := Writes(prev.log) + Writes(row.log);
      assert Writes(GridRun(templates, schemes, io, render).log) == all by {
        WritesConcat(prev.log, row.log);
      }
      GridWrites(init, schemes, io, render);
      RowWrites(t, m, schemes, io, render);
      MulSucc(m, |schemes|);
      forall i, j | 0 <= i < |templates| && 0 <= j < |schemes|
        ensures render(templates[i].contents, schemes[j], io(i, j).order).Some?
        ensures 0 <= i * |schemes| + j < |all| && all[i * |schemes| + j]
          == Write(FilePath(templates[i], schemes[j]), render(templates[i].contents, schemes[j], io(i, j).order).value)
      {
        GridIndex(Writes(prev.log), Writes(row.log), m, |schemes|, i, j);
        if i < m {
          assert init[i] == templates[i];
        }
      }
    }
  }

  /** A failed directory creation or write neither changes what is written
      nor stops the build: two environments that differ only in those
      outcomes write the same files and stop at the same point. */
  lemma {:induction false} WritesIgnoreFailures(templates: seq<Template>, schemes: seq<Scheme>,
                                                 io1: (nat, nat) -> PairIo, io2: (nat, nat) -> PairIo, render: Renderer)
    requires forall i, j :: io1(i, j).order == io2(i, j).order
    ensures GridRun(templates, schemes, io1, render).finished == GridRun(templates, schemes, io2, render).finished
    ensures Writes(GridRun(templates, schemes, io1, render).log) == Writes(GridRun(templates, schemes, io2, render).log)
    decreases |templates|
  {
    if |templates| > 0 {
      var m := |templates| - 1;
      WritesIgnoreFailures(templates[..m], schemes, io1, io2, render);
      RowIgnoresFailures(templates[m], m, schemes, io1, io2, render);
      var p1, p2 := GridRun(templates[..m], schemes, io1, render), GridRun(templates[..m], schemes, io2, render);
      if p1.finished {
        WritesConcat(p1.log, RowRun(templates[m], m, schemes, io1, render).log);
        WritesConcat(p2.log, RowRun(templates[m], m, schemes, io2, render).log);
      }
    }
  }

  lemma {:induction false} RowIgnoresFailures(t: Template, i: nat, schemes: seq<Scheme>,
                                               io1: (nat, nat) -> PairIo, io2: (nat, nat) -> PairIo, render: Renderer)
    requires forall i, j :: io1(i, j).order == io2(i, j).order
    ensures RowRun(t, i, schemes, io1, render).finished == RowRun(t, i, schemes, io2, render).finished
    ensures Writes(RowRun(t, i, schemes, io1, render).log) == Writes(RowRun(t, i, schemes, io2, render).log)
    decreases |schemes|
  {
    if |schemes| > 0 {
      var n := |schemes| - 1;
      RowIgnoresFailures(t, i, schemes[..n], io1, io2, render);
      PairWrites(t, schemes[n], io1(i, n), render);
      PairWrites(t, schemes[n], io2(i, n), render);
      var p1, p2 := RowRun(t, i, schemes[..n], io1, render), RowRun(t, i, schemes[..n], io2, render);
      if p1.finished {
        WritesConcat(p1.log, PairRun(t, schemes[n], io1(i, n), render).log);
        WritesConcat(p2.log, PairRun(t, schemes[n], io2(i, n), render).log);
      }
    }
  }

  /** With real `HashMap` orders, the build of loaded templates and schemes
      finishes exactly when there is no template or every scheme's slots
      parse. */
  lemma BuildFinishesIff(templates: seq<Template>, schemes: seq<Scheme>, io: (nat, nat) -> PairIo)
    requires forall i, j :: IsVisitOrder(io(i, j).order)
    ensures GridRun(templates, schemes, io, RenderFrom).finished <==>
      |templates| == 0 || forall j :: 0 <= j < |schemes| ==> AllSlotsParse(schemes[j])
  {
    GridFinishesIff(templates, schemes, io, RenderFrom);
    forall i, j | 0 <= i < |templates| && 0 <= j < |schemes|
      ensures RenderFrom(templates[i].contents, schemes[j], io(i, j).order).Some? <==> AllSlotsParse(schemes[j])
    {
      RenderFailsIff(templates[i].contents, schemes[j], io(i, j).order);
    }
    if |templates| > 0 && GridRun(templates, schemes, io, RenderFrom).finished {
      forall j | 0 <= j < |schemes|
        ensures AllSlotsParse(schemes[j])
      {
        assert RenderFrom(templates[0].contents, schemes[j], io(0, j).order).Some?;
      }
    }
  }

  /** Within one template, distinct slugs give distinct file paths; two
      schemes with the same slug overwrite each other's file. */
  lemma FilePathInjective(t: Template, s1: Scheme, s2: Scheme)
    ensures FilePath(t, s1) == FilePath(t, s2) <==> s1.slug == s2.slug
  {
    if FilePath(t, s1) == FilePath(t, s2) {
      var a := t.outputPath + "/";
      var p := FilePath(t, s1);
      assert |s1.slug| == |s2.slug|;
      assert s1.slug == p[|a|..|a| + |s1.slug|] == s2.slug;
    }
  }
}
