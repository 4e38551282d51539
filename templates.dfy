/** `get_templates` (src/main.rs): every program directory under `templates`
    lists its templates in `templates/config.yaml`; each entry names a
    `.mustache` file and says where its output goes and with which file
    extension. */
module Templates {
  import opened Wrappers
  import opened Yaml
  import opened Strings

  /** `struct Template`. */
  datatype Template = Template(contents: string, extension: string, outputPath: string)

  /** One entry of `config.yaml`: the template's name (the mapping key) and the
      `extension` and `output` values of its mapping (`None` when the key is
      absent, or the entry is not a mapping). */
  datatype TemplateEntry = TemplateEntry(name: Scalar, extension: Option<Scalar>, output: Option<Scalar>)

  /** One program directory: its name, the entries of its `config.yaml`
      (`None` when the file cannot be read or parsed) and the contents of the
      readable `templates/<name>.mustache` files, by template name. */
  datatype ProgramDir = ProgramDir(name: string, config: Option<seq<TemplateEntry>>, mustache: map<string, string>)

  /** `format!("output/{}/{}", program_name, output)`. */
  function OutputPath(program: string, output: string): (p: string)
    ensures StartsWith(p, "output/" + program + "/")
    ensures p[|"output/" + program + "/"|..] == output
  {
    var dir := "output/" + program + "/";
    assert (dir + output)[..|dir|] == dir;
    dir + output
  }

  /** The output path names its program directory: two programs without '/'
      in their names never share an output path, and the output value is
      recovered from the path. */
  lemma OutputPathInjective(p1: string, o1: string, p2: string, o2: string)
    requires '/' !in p1 && '/' !in p2
    requires OutputPath(p1, o1) == OutputPath(p2, o2)
    ensures p1 == p2 && o1 == o2
  {
    var s := OutputPath(p1, o1);
    assert s == OutputPath(p2, o2);
    assert forall i :: 0 <= i < |p1| ==> s[7 + i] == p1[i];
    assert forall i :: 0 <= i < |p2| ==> s[7 + i] == p2[i];
    assert s[7 + |p1|] == '/' && s[7 + |p2|] == '/';
    assert |p1| == |p2|;
    assert p1 == s[7..7 + |p1|] == p2;
    assert o1 == s[8 + |p1|..] == o2;
  }

  /** The template an entry yields; `None` where the source panics: a
      non-string name (`as_str().unwrap()`), an unreadable `.mustache` file
      (`expect`), an absent `extension` or an absent or non-string `output`
      (`get(..).unwrap()`, `as_str().unwrap()`). A present but non-string
      `extension` gives the empty extension. */
  function MakeTemplate(program: string, entry: TemplateEntry, mustache: map<string, string>): (r: Option<Template>)
    ensures r.Some? <==>
      entry.name.Str? && entry.name.s in mustache && entry.extension.Some? && entry.output.Some? && entry.output.value.Str?
    ensures r.Some? ==> r.value.contents == mustache[entry.name.s]
    ensures r.Some? ==> r.value.outputPath == OutputPath(program, entry.output.value.s)
    ensures r.Some? ==> StartsWith(r.value.outputPath, "output/" + program + "/")
    ensures r.Some? && entry.extension.value.Str? ==> r.value.extension == entry.extension.value.s
    ensures r.Some? && entry.extension == Some(NonString) ==> r.value.extension == ""
  {
    match entry.name
      case NonString => None
      case Str(name) =>
        if name !in mustache then None
        else match (entry.extension, entry.output)
          case (Some(ext), Some(Str(output))) =>
            var extension := if ext.Str? then ext.s else "";
            Some(Template(mustache[name], extension, OutputPath(program, output)))
          case _ => None
  }

  /** The templates of one program directory, in `config.yaml` order; `None`
      once an entry panics. Defined by peeling the last entry. */
  function EntriesTemplates(program: string, entries: seq<TemplateEntry>, mustache: map<string, string>): Option<seq<Template>>
    decreases |entries|
  {
    if |entries| == 0 then Some([])
    else match EntriesTemplates(program, entries[..|entries| - 1], mustache)
      case None => None
      case Some(ts) =>
        match MakeTemplate(program, entries[|entries| - 1], mustache)
          case None => None
          case Some(t) => Some(ts + [t])
  }

  function DirTemplates(dir: ProgramDir): Option<seq<Template>> {
    match dir.config
      case None => None
      case Some(entries) => EntriesTemplates(dir.name, entries, dir.mustache)
  }

  /** `get_templates`: `root` lists the program directories of `templates`
      (`None` when it cannot be read). */
  function GetTemplatesSpec(root: Option<seq<ProgramDir>>): Option<seq<Template>> {
    match root
      case None => None
      case Some(dirs) => TemplatesOfDirs(dirs)
  }

  function TemplatesOfDirs(dirs: seq<ProgramDir>): Option<seq<Template>>
    decreases |dirs|
  {
    if |dirs| == 0 then Some([])
    else match TemplatesOfDirs(dirs[..|dirs| - 1])
      case None => None
      case Some(ts) =>
        match DirTemplates(dirs[|dirs| - 1])
          case None => None
          case Some(more) => Some(ts + more)
  }

  /** A program yields one template per entry, in order, each the template of
      its entry. */
  lemma {:induction false} EntriesTemplatesPointwise(program: string, entries: seq<TemplateEntry>, mustache: map<string, string>)
    requires EntriesTemplates(program, entries, mustache).Some?
    ensures var ts := EntriesTemplates(program, entries, mustache).value;
      && |ts| == |entries|
      && forall i :: 0 <= i < |entries| ==> MakeTemplate(program, entries[i], mustache) == Some(ts[i])
    decreases |entries|
  {
    if |entries| > 0 {
      EntriesTemplatesPointwise(program, entries[..|entries| - 1], mustache);
    }
  }

  /** A program panics exactly when one of its entries does. */
  lemma {:induction false} EntriesTemplatesFailIff(program: string, entries: seq<TemplateEntry>, mustache: map<string, string>)
    ensures EntriesTemplates(program, entries, mustache).None? <==>
      exists i :: 0 <= i < |entries| && MakeTemplate(program, entries[i], mustache).None?
    decreases |entries|
  {
    if |entries| > 0 {
      var init := entries[..|entries| - 1];
      EntriesTemplatesFailIff(program, init, mustache);
      if exists i :: 0 <= i < |init| && MakeTemplate(program, init[i], mustache).None? {
        var i :| 0 <= i < |init| && MakeTemplate(program, init[i], mustache).None?;
        assert entries[i] == init[i];
      }
      if exists i :: 0 <= i < |entries| && MakeTemplate(program, entries[i], mustache).None? {
        var i :| 0 <= i < |entries| && MakeTemplate(program, entries[i], mustache).None?;
        if i < |init| {
          assert init[i] == entries[i];
        }
      }
    }
  }

  /** Every template of a program writes below `output/<program>/`. */
  lemma DirTemplatesOutput(dir: ProgramDir)
    requires DirTemplates(dir).Some?
    ensures forall t :: t in DirTemplates(dir).value ==> StartsWith(t.outputPath, "output/" + dir.name + "/")
  {
    var ts := DirTemplates(dir).value;
    EntriesTemplatesPointwise(dir.name, dir.config.value, dir.mustache);
    forall t | t in ts
      ensures StartsWith(t.outputPath, "output/" + dir.name + "/")
    {
      var i :| 0 <= i < |ts| && ts[i] == t;
    }
  }

  /** Every template `get_templates` loads writes below `output/`. */
  lemma {:induction false} TemplatesUnderOutput(dirs: seq<ProgramDir>)
    requires TemplatesOfDirs(dirs).Some?
    ensures forall t :: t in TemplatesOfDirs(dirs).value ==> StartsWith(t.outputPath, "output/")
    decreases |dirs|
  {
    if |dirs| > 0 {
      TemplatesUnderOutput(dirs[..|dirs| - 1]);
      var d := dirs[|dirs| - 1];
      DirTemplatesOutput(d);
      var dir := "output/" + d.name + "/";
      assert StartsWith(dir, "output/") by { assert dir[..7] == "output/"; }
      forall t | t in DirTemplates(d).value
        ensures StartsWith(t.outputPath, "output/")
      {
        StartsWithPrefix(t.outputPath, dir, "output/");
      }
    }
  }

  /** `get_templates`: for every program directory, read its `config.yaml`, and
      for every entry build and push its template. */
  method GetTemplates(root: Option<seq<ProgramDir>>) returns (r: Option<seq<Template>>)
    ensures r == GetTemplatesSpec(root)
  {
    if root.None? {
      return None;
    }
    var dirs := root.value;
    var templates: seq<Template> := [];
    var d := 0;
    while d < |dirs|
      invariant 0 <= d <= |dirs|
      invariant TemplatesOfDirs(dirs[..d]) == Some(templates)
    {
      assert dirs[..d + 1][..d] == dirs[..d];
      var more := LoadProgram(dirs[d]);
      if more.None? {
        TemplatesStayFailed(dirs, d + 1);
        return None;
      }
      templates := templates + more.value;
      d := d + 1;
    }
    assert dirs[..d] == dirs;
    return Some(templates);
  }

  /** The inner loop of `get_templates` over the entries of one program's
      `config.yaml`. */
  method LoadProgram(dir: ProgramDir) returns (r: Option<seq<Template>>)
    ensures r == DirTemplates(dir)
  {
    if dir.config.None? {
      return None;
    }
    var entries := dir.config.value;
    var templates: seq<Template> := [];
    var j := 0;
    while j < |entries|
      invariant 0 <= j <= |entries|
      invariant EntriesTemplates(dir.name, entries[..j], dir.mustache) == Some(templates)
    {
      assert entries[..j + 1][..j] == entries[..j];
      var template := LoadEntry(dir.name, entries[j], dir.mustache);
      if template.None? {
        EntriesStayFailed(dir.name, entries, dir.mustache, j + 1);
        return None;
      }
      templates := templates + [template.value];
      j := j + 1;
    }
    assert entries[..j] == entries;
    return Some(templates);
  }

  /** One entry: its `.mustache` contents, its extension and its output path. */
  method LoadEntry(program: string, entry: TemplateEntry, mustache: map<string, string>) returns (r: Option<Template>)
    ensures r == MakeTemplate(program, entry, mustache)
  {
    if entry.name.NonString? {
      return None;
    }
    var name := entry.name.s;
    if name !in mustache {
      return None;
    }
    var contents := mustache[name];
    if entry.extension.None? || entry.output.None? || entry.output.value.NonString? {
      return None;
    }
    var extension := if entry.extension.value.NonString? then "" else entry.extension.value.s;
    return Some(Template(contents, extension, OutputPath(program, entry.output.value.s)));
  }

  lemma {:induction false} EntriesStayFailed(program: string, entries: seq<TemplateEntry>, mustache: map<string, string>, n: nat)
    requires n <= |entries| && EntriesTemplates(program, entries[..n], mustache).None?
    ensures EntriesTemplates(program, entries, mustache).None?
    decreases |entries| - n
  {
    if n < |entries| {
      assert entries[..n + 1][..n] == entries[..n];
      EntriesStayFailed(program, entries, mustache, n + 1);
    } else {
      assert entries[..n] == entries;
    }
  }

  /** A panic in a prefix of the directories (or in the last directory of the
      prefix) is a panic of the whole of `get_templates`. */
  lemma {:induction false} TemplatesStayFailed(dirs: seq<ProgramDir>, n: nat)
    requires 0 < n <= |dirs|
    requires TemplatesOfDirs(dirs[..n - 1]).None? || DirTemplates(dirs[n - 1]).None?
    ensures TemplatesOfDirs(dirs).None?
    decreases |dirs| - n
  {
    assert dirs[..n][..n - 1] == dirs[..n - 1];
    if n < |dirs| {
      assert dirs[..n + 1][..n] == dirs[..n];
      TemplatesStayFailed(dirs, n + 1);
    } else {
      assert dirs[..n] == dirs;
    }
  }
}
