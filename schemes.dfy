/** The `Scheme` record, the slug of a scheme file, the dispatch of YAML keys to
    the record's fields, and the loader that walks the scheme directories
    (`get_schemes` in src/main.rs). */
module Schemes {
  import opened Wrappers
  import opened Yaml
  import opened Strings

  /** One of the 16 colour slots base00 .. base0F. */
  type Slot = k: int | 0 <= k < 16

  /** Upper-case hexadecimal digit of a slot number. */
  function UpperHexDigit(k: Slot): char {
    if k < 10 then ('0' as int + k) as char else ('A' as int + k - 10) as char
  }

  /** The YAML key and the placeholder prefix of a slot: "base00" .. "base0F". */
  function SlotName(k: Slot): (n: string)
    ensures |n| == 6 && n[..5] == "base0"
  {
    "base0" + [UpperHexDigit(k)]
  }

  /** The slot a YAML key names, if any: the exact inverse of `SlotName`
      (keys are matched case-sensitively, so "base0a" names no slot). */
  function SlotOfKey(key: string): (r: Option<Slot>)
    ensures forall k: Slot :: r == Some(k) <==> key == SlotName(k)
  {
    if |key| == 6 && key[..5] == "base0" then
      var c := key[5];
      if '0' <= c <= '9' then
        assert key == SlotName(c as int - '0' as int);
        Some(c as int - '0' as int)
      else if 'A' <= c <= 'F' then
        assert key == SlotName(c as int - 'A' as int + 10);
        Some(c as int - 'A' as int + 10)
      else None
    else None
  }

  /** The 16 colour values, indexed by slot. */
  type Palette = s: seq<string> | |s| == 16
    witness ["", "", "", "", "", "", "", "", "", "", "", "", "", "", "", ""]

  /** `struct Scheme`: name, author, slug and the 16 colour fields. */
  datatype Scheme = Scheme(name: string, author: string, slug: string, slots: Palette)

  /** The record a scheme file starts from: every field empty except the slug. */
  function EmptyScheme(slug: string): (sc: Scheme)
    ensures sc.slug == slug && sc.name == "" && sc.author == ""
    ensures forall k: Slot :: sc.slots[k] == ""
  {
    Scheme("", "", slug, ["", "", "", "", "", "", "", "", "", "", "", "", "", "", "", ""])
  }

  // ---------------------------------------------------------------------------
  // Key dispatch

  /** One arm of the `match key` in `get_schemes`: `scheme` sets the name,
      `author` the author, `base00` .. `base0F` their slot; any other key is
      ignored. */
  function SetField(sc: Scheme, key: string, value: string): (r: Scheme)
    ensures r.slug == sc.slug
    ensures r.name == (if key == "scheme" then value else sc.name)
    ensures r.author == (if key == "author" then value else sc.author)
    ensures SlotOfKey(key).None? ==> r.slots == sc.slots
  {
    if key == "scheme" then sc.(name := value)
    else if key == "author" then sc.(author := value)
    else match SlotOfKey(key)
      case Some(k) => sc.(slots := sc.slots[k := value])
      case None => sc
  }

  /** The record after the loop over the YAML pairs (`key.as_str().unwrap()` and
      `value.as_str().unwrap()` panic on a non-string key or value: `None`).
      Defined by peeling the last pair, the way the loop extends its prefix. */
  function Dispatch(sc: Scheme, pairs: seq<(Scalar, Scalar)>): Option<Scheme>
    decreases |pairs|
  {
    if |pairs| == 0 then Some(sc)
    else match Dispatch(sc, pairs[..|pairs| - 1])
      case None => None
      case Some(prev) =>
        var (k, v) := pairs[|pairs| - 1];
        if k.Str? && v.Str? then Some(SetField(prev, k.s, v.s)) else None
  }

  /** The value of the last pair whose key is the string `key`. */
  function LastValue(pairs: seq<(Scalar, Scalar)>, key: string): Option<Scalar>
    decreases |pairs|
  {
    if |pairs| == 0 then None
    else if pairs[|pairs| - 1].0 == Str(key) then Some(pairs[|pairs| - 1].1)
    else LastValue(pairs[..|pairs| - 1], key)
  }

  /** A field's final value: the last pair for its key wins, and a field that no
      pair mentions keeps its initial value. */
  function FieldAfter(initial: string, pairs: seq<(Scalar, Scalar)>, key: string): string {
    match LastValue(pairs, key)
      case Some(Str(v)) => v
      case _ => initial
  }

  /** A `base0X` key sets exactly its own slot. */
  lemma SetFieldSlot(sc: Scheme, key: string, value: string, k: Slot)
    ensures SetField(sc, key, value).slots[k] == (if key == SlotName(k) then value else sc.slots[k])
  {
    if key == SlotName(k) {
      assert SlotOfKey(key) == Some(k);
      assert key[0] == 'b';
    }
  }

  /** Key dispatch: the record produced from `sc` has, in every field, the value
      of the last pair for that field's key, and the slug is never touched. */
  lemma {:induction false} DispatchLastWins(sc: Scheme, pairs: seq<(Scalar, Scalar)>)
    requires Dispatch(sc, pairs).Some?
    ensures var r := Dispatch(sc, pairs).value;
      && r.slug == sc.slug
      && r.name == FieldAfter(sc.name, pairs, "scheme")
      && r.author == FieldAfter(sc.author, pairs, "author")
      && forall k: Slot :: r.slots[k] == FieldAfter(sc.slots[k], pairs, SlotName(k))
    decreases |pairs|
  {
    if |pairs| > 0 {
      var init := pairs[..|pairs| - 1];
      DispatchLastWins(sc, init);
      var prev := Dispatch(sc, init).value;
      var (key, v) := pairs[|pairs| - 1];
      assert Dispatch(sc, pairs) == Some(SetField(prev, key.s, v.s));
      forall k: Slot
        ensures Dispatch(sc, pairs).value.slots[k] == FieldAfter(sc.slots[k], pairs, SlotName(k))
      {
        SetFieldSlot(prev, key.s, v.s, k);
      }
    }
  }

  /** Every non-string key or value panics: the dispatch succeeds exactly when
      all keys and values are strings. */
  lemma {:induction false} DispatchSucceedsIffStrings(sc: Scheme, pairs: seq<(Scalar, Scalar)>)
    ensures Dispatch(sc, pairs).Some? <==>
            forall i :: 0 <= i < |pairs| ==> pairs[i].0.Str? && pairs[i].1.Str?
    decreases |pairs|
  {
    if |pairs| > 0 {
      var init := pairs[..|pairs| - 1];
      DispatchSucceedsIffStrings(sc, init);
      assert forall i :: 0 <= i < |init| ==> init[i] == pairs[i];
    }
  }

  /** A key that is neither `scheme`, `author` nor a slot name changes nothing. */
  lemma IgnoredKeyKeepsRecord(sc: Scheme, key: string, value: string)
    requires key != "scheme" && key != "author"
    requires forall k: Slot :: key != SlotName(k)
    ensures SetField(sc, key, value) == sc
  {
    assert SlotOfKey(key).None?;
  }

  /** The loop over the YAML pairs of one scheme file, updating the record in
      place. */
  method DispatchPairs(initial: Scheme, pairs: seq<(Scalar, Scalar)>) returns (r: Option<Scheme>)
    ensures r == Dispatch(initial, pairs)
  {
    var scheme := initial;
    var i := 0;
    while i < |pairs|
      invariant 0 <= i <= |pairs|
      invariant Dispatch(initial, pairs[..i]) == Some(scheme)
    {
      var (key, value) := pairs[i];
      assert pairs[..i + 1][..i] == pairs[..i];
      if !key.Str? || !value.Str? {
        DispatchStaysFailed(initial, pairs, i + 1);
        return None;
      }
      if key.s == "scheme" {
        scheme := scheme.(name := value.s);
      } else if key.s == "author" {
        scheme := scheme.(author := value.s);
      } else {
        var slot := SlotOfKey(key.s);
        if slot.Some? {
          scheme := scheme.(slots := scheme.slots[slot.value := value.s]);
        }
      }
      i := i + 1;
    }
    assert pairs[..i] == pairs;
    return Some(scheme);
  }

  /** Once a pair panics, no longer prefix can succeed. */
  lemma {:induction false} DispatchStaysFailed(sc: Scheme, pairs: seq<(Scalar, Scalar)>, n: nat)
    requires n <= |pairs| && Dispatch(sc, pairs[..n]).None?
    ensures Dispatch(sc, pairs).None?
    decreases |pairs| - n
  {
    if n < |pairs| {
      assert pairs[..n + 1][..n] == pairs[..n];
      DispatchStaysFailed(sc, pairs, n + 1);
    } else {
      assert pairs[..n] == pairs;
    }
  }

  // ---------------------------------------------------------------------------
  // Slug

  /** The `base16-` prefix rule: added unless already present somewhere. */
  function AddPrefix(s: string): (r: string)
    ensures Occurs(r, "base16-")
    ensures Occurs(s, "base16-") ==> r == s
  {
    if Occurs(s, "base16-") then s else "base16-" + s
  }

  /** The slug of a scheme file name: spaces become `_`, every `.yaml` and then
      every `.yml` is deleted, the result is lower-cased (ASCII) and `base16-` is
      prefixed unless present. */
  function Slug(fileName: string): (slug: string)
    ensures Occurs(slug, "base16-")
  {
    AddPrefix(Lower(ReplaceAll(ReplaceAll(ReplaceAll(fileName, " ", "_"), ".yaml", ""), ".yml", "")))
  }

  /** The slug always carries `base16-` and never contains a space. */
  lemma SlugShape(fileName: string)
    ensures Occurs(Slug(fileName), "base16-")
    ensures ' ' !in Slug(fileName)
  {
    var a := ReplaceAll(fileName, " ", "_");
    ReplaceCharRemoves(fileName, ' ', "_");
    var b := ReplaceAll(a, ".yaml", "");
    ReplaceKeepsAbsent(a, ".yaml", "", ' ');
    var c := ReplaceAll(b, ".yml", "");
    ReplaceKeepsAbsent(b, ".yml", "", ' ');
    LowerKeepsNonLetter(c, ' ');
  }

  /** The prefix rule is idempotent. */
  lemma AddPrefixIdempotent(s: string)
    ensures AddPrefix(AddPrefix(s)) == AddPrefix(s)
  {
  }

  /** Deleting `.yaml` then `.yml` from the extension part of a file name
      leaves nothing. */
  lemma ExtensionDeleted(ext: string)
    requires ext == "yaml" || ext == "yml"
    ensures ReplaceAll(ReplaceAll("." + ext, ".yaml", ""), ".yml", "") == ""
  {
    if ext == "yaml" {
      assert StartsWith(".yaml", ".yaml");
      assert ReplaceAll(".yaml", ".yaml", "") == "";
    } else {
      OccursLength(".yml", ".yaml");
      assert StartsWith(".yml", ".yml");
      assert ReplaceAll(".yml", ".yml", "") == "";
    }
  }

  /** For a file name `stem.yaml` or `stem.yml` whose stem has no dot, the slug
      is the stem with spaces replaced and lower-cased, prefixed by the rule. */
  lemma {:induction false} SlugStripsExtension(stem: string, ext: string)
    requires ext == "yaml" || ext == "yml"
    requires '.' !in stem
    ensures Slug(stem + "." + ext) == AddPrefix(Lower(ReplaceAll(stem, " ", "_")))
  {
    var dotExt := "." + ext;
    var w := ReplaceAll(stem, " ", "_");
    assert ReplaceAll(stem + "." + ext, " ", "_") == w + dotExt by {
      assert stem + "." + ext == stem + dotExt;
      ReplaceCharConcat(stem, dotExt, ' ', "_");
      OccursChar(dotExt, ' ');
    }
    var rest := ReplaceAll(dotExt, ".yaml", "");
    assert ReplaceAll(w + dotExt, ".yaml", "") == w + rest by {
      ReplaceKeepsAbsent(stem, " ", "_", '.');
      ReplacePassesPrefix(w, dotExt, ".yaml", "");
    }
    assert ReplaceAll(w + rest, ".yml", "") == w by {
      ReplaceKeepsAbsent(stem, " ", "_", '.');
      ReplacePassesPrefix(w, rest, ".yml", "");
      ExtensionDeleted(ext);
      assert w + "" == w;
    }
  }

  /** Such a slug contains no dot at all, hence no `.yaml` and no `.yml`. */
  lemma SlugOfPlainStem(stem: string, ext: string)
    requires ext == "yaml" || ext == "yml"
    requires '.' !in stem
    ensures '.' !in Slug(stem + "." + ext)
    ensures !Occurs(Slug(stem + "." + ext), ".yaml") && !Occurs(Slug(stem + "." + ext), ".yml")
  {
    SlugStripsExtension(stem, ext);
    var w := ReplaceAll(stem, " ", "_");
    ReplaceKeepsAbsent(stem, " ", "_", '.');
    LowerKeepsNonLetter(w, '.');
    var slug := Slug(stem + "." + ext);
    if Occurs(slug, ".yaml") { OccursFirstChar(slug, ".yaml"); }
    if Occurs(slug, ".yml") { OccursFirstChar(slug, ".yml"); }
  }

  /** A slug without `.yaml` and `.yml` is a fixed point of the transform. */
  lemma SlugIdempotent(fileName: string)
    requires !Occurs(Slug(fileName), ".yaml") && !Occurs(Slug(fileName), ".yml")
    ensures Slug(Slug(fileName)) == Slug(fileName)
  {
    var s := Slug(fileName);
    SlugShape(fileName);
    OccursChar(s, ' ');
    assert ReplaceAll(s, " ", "_") == s;
    assert ReplaceAll(s, ".yaml", "") == s;
    assert ReplaceAll(s, ".yml", "") == s;
    SlugIsLower(fileName);
  }

  /** A slug is already lower-case. */
  lemma SlugIsLower(fileName: string)
    ensures Lower(Slug(fileName)) == Slug(fileName)
  {
    var c := ReplaceAll(ReplaceAll(ReplaceAll(fileName, " ", "_"), ".yaml", ""), ".yml", "");
    LowerIdempotent(c);
    if !Occurs(Lower(c), "base16-") {
      LowerConcat("base16-", Lower(c));
      PrefixIsLower();
    }
  }

  lemma PrefixIsLower()
    ensures Lower("base16-") == "base16-"
  {
  }

  /** The idempotence above needs its hypothesis, and the slug does not
      always lose the extension: in `stem.YAML.yaml` only the lower-case
      `.yaml` is deleted, and lower-casing then turns `.YAML` into `.yaml`, so
      the slug ends in `.yaml`. */
  lemma UpperExtensionSurvives(stem: string)
    requires '.' !in stem && ' ' !in stem
    ensures Slug(stem + ".YAML.yaml") == AddPrefix(Lower(stem) + ".yaml")
    ensures Occurs(Slug(stem + ".YAML.yaml"), ".yaml")
  {
    var name := stem + ".YAML.yaml";
    assert ReplaceAll(name, " ", "_") == name by {
      assert ' ' !in ".YAML.yaml";
      assert ' ' !in name;
      OccursChar(name, ' ');
    }
    assert ReplaceAll(name, ".yaml", "") == stem + ".YAML" by {
      ReplacePassesPrefix(stem, ".YAML.yaml", ".yaml", "");
      DeleteYamlAfterDot();
    }
    assert ReplaceAll(stem + ".YAML", ".yml", "") == stem + ".YAML" by {
      ReplacePassesPrefix(stem, ".YAML", ".yml", "");
      NoYmlAfterDot();
    }
    assert Lower(stem + ".YAML") == Lower(stem) + ".yaml" by {
      LowerConcat(stem, ".YAML");
      LowerDotYaml();
    }
    var y := Lower(stem);
    if Occurs(y + ".yaml", "base16-") {
      OccursSuffix(y, ".yaml");
    } else {
      assert "base16-" + (y + ".yaml") == ("base16-" + y) + ".yaml";
      OccursSuffix("base16-" + y, ".yaml");
    }
  }

  /** Deleting `.yml` can also join two pieces into a new `.yaml`: a file
      `<stem>.ya.ymlml.yml` is read as a scheme (its extension is `yml`) and
      its slug ends in `.yaml`. With `UpperExtensionSurvives` this is why the
      slug's lack of `.yaml` is proved only for stems without '.'. */
  lemma JoinedExtensionSurvives(stem: string)
    requires stem != "" && '.' !in stem && ' ' !in stem
    ensures IsSchemeFile(stem + ".ya.ymlml.yml")
    ensures Slug(stem + ".ya.ymlml.yml") == AddPrefix(Lower(stem) + ".yaml")
    ensures Occurs(Slug(stem + ".ya.ymlml.yml"), ".yaml")
  {
    var name := stem + ".ya.ymlml.yml";
    assert IsSchemeFile(name) by {
      assert name == (stem + ".ya.ymlml") + "." + "yml";
      FileExtensionSplit(stem + ".ya.ymlml", "yml");
    }
    assert ReplaceAll(name, " ", "_") == name by {
      assert ' ' !in ".ya.ymlml.yml";
      assert ' ' !in name;
      OccursChar(name, ' ');
    }
    assert ReplaceAll(name, ".yaml", "") == name by {
      ReplacePassesPrefix(stem, ".ya.ymlml.yml", ".yaml", "");
      NoYamlInJoined(".ya.ymlml.yml");
    }
    assert ReplaceAll(name, ".yml", "") == stem + ".yaml" by {
      ReplacePassesPrefix(stem, ".ya.ymlml.yml", ".yml", "");
      DeleteYmlJoins(".ya.ymlml.yml");
    }
    assert Lower(stem + ".yaml") == Lower(stem) + ".yaml" by {
      LowerConcat(stem, ".yaml");
      LowerLowerYaml();
    }
    var y := Lower(stem);
    if Occurs(y + ".yaml", "base16-") {
      OccursSuffix(y, ".yaml");
    } else {
      Assoc("base16-", y, ".yaml");
      OccursSuffix("base16-" + y, ".yaml");
    }
  }

  lemma NoYamlInJoined(t: string)
    requires t == ".ya.ymlml.yml"
    ensures ReplaceAll(t, ".yaml", "") == t
  {
    var p, q, u, w := ".yaml", ".yml", "ya", "ymlml";
    assert t == ['.'] + u + (['.'] + w + q);
    assert !StartsWith(['.'] + w + q, p) by { assert (['.'] + w + q)[2] == 'm'; }
    assert !StartsWith(t, p) by { assert t[3] == '.'; }
    OccursLength(q, p);
    KeepTwoDots(u, w, q, p);
  }

  /** A text `.u.wq` without `p` at either dot, and with no `p` in the tail `q`,
      passes through the deletion of `p` unchanged. */
  lemma KeepTwoDots(u: string, w: string, q: string, p: string)
    requires |p| > 0 && p[0] == '.' && '.' !in u && '.' !in w
    requires !StartsWith(['.'] + u + (['.'] + w + q), p) && !StartsWith(['.'] + w + q, p)
    requires ReplaceAll(q, p, "") == q
    ensures ReplaceAll(['.'] + u + (['.'] + w + q), p, "") == ['.'] + u + (['.'] + w + q)
  {
    var t := ['.'] + w + q;
    Assoc(['.'], w, q);
    ReplaceSkip('.', w + q, p, "");
    ReplacePassesPrefix(w, q, p, "");
    Assoc(['.'], u, t);
    ReplaceSkip('.', u + t, p, "");
    ReplacePassesPrefix(u, t, p, "");
  }

  lemma DeleteYmlJoins(t: string)
    requires t == ".ya.ymlml.yml"
    ensures ReplaceAll(t, ".yml", "") == ".yaml"
  {
    var p, u, v := ".yml", "ya", "ml";
    assert t == ['.'] + u + (p + (v + p));
    assert !StartsWith(t, p) by { assert t[2] == 'a'; }
    DeleteJoins(u, v, p);
    assert ['.'] + u + v == ".yaml";
  }

  /** Deleting `p` from `.u p v p` joins `.u` and `v`. */
  lemma DeleteJoins(u: string, v: string, p: string)
    requires |p| > 0 && p[0] == '.' && '.' !in u && '.' !in v
    requires !StartsWith(['.'] + u + (p + (v + p)), p)
    ensures ReplaceAll(['.'] + u + (p + (v + p)), p, "") == ['.'] + u + v
  {
    var t := p + (v + p);
    assert ReplaceAll(p, p, "") == [] by {
      assert StartsWith(p, p) && p[|p|..] == [];
    }
    ReplacePassesPrefix(v, p, p, "");
    AppendEmpty(v);
    assert ReplaceAll(t, p, "") == v by {
      assert StartsWith(t, p) && t[|p|..] == v + p;
    }
    Assoc(['.'], u, t);
    ReplaceSkip('.', u + t, p, "");
    ReplacePassesPrefix(u, t, p, "");
    Assoc(['.'], u, v);
  }

  lemma LowerLowerYaml()
    ensures Lower(".yaml") == ".yaml"
  {
  }

  lemma LowerDotYaml()
    ensures Lower(".YAML") == ".yaml"
  {
    var l := Lower(".YAML");
    assert l[0] == '.' && l[1] == 'y' && l[2] == 'a' && l[3] == 'm' && l[4] == 'l';
  }

  lemma NoYmlAfterDot()
    ensures ReplaceAll(".YAML", ".yml", "") == ".YAML"
  {
    if Occurs(".YAML", ".yml") {
      assert !StartsWith(".YAML", ".yml") by { assert ".YAML"[1] != ".yml"[1]; }
      assert ".YAML"[1..] == "YAML";
      OccursFirstChar("YAML", ".yml");
    }
  }

  lemma DeleteYamlAfterDot()
    ensures ReplaceAll(".YAML.yaml", ".yaml", "") == ".YAML"
  {
    assert ".YAML.yaml"[1] != ".yaml"[1];
    assert ".YAML.yaml"[1..] == "YAML.yaml";
    DeleteYamlAfterUpper();
  }

  lemma DeleteYamlAfterUpper()
    ensures ReplaceAll("YAML.yaml", ".yaml", "") == "YAML"
  {
    ReplacePassesPrefix("YAML", ".yaml", ".yaml", "");
    assert "YAML.yaml" == "YAML" + ".yaml";
    assert StartsWith(".yaml", ".yaml");
    assert ReplaceAll(".yaml", ".yaml", "") == "";
  }

  // ---------------------------------------------------------------------------
  // Loading the scheme directories

  /** Index of the last '.' of `s`, or -1 when there is none. */
  function LastDot(s: string): (i: int)
    ensures -1 <= i < |s|
    ensures i >= 0 ==> s[i] == '.'
    ensures forall j :: i < j < |s| ==> s[j] != '.'
    decreases |s|
  {
    if |s| == 0 then -1
    else if s[|s| - 1] == '.' then |s| - 1
    else LastDot(s[..|s| - 1])
  }

  /** `Path::extension` of a file name: the text after the last dot, provided
      something precedes that dot; ".." has none. */
  function FileExtension(name: string): (r: Option<string>)
    ensures r.Some? ==> '.' !in r.value && |r.value| < |name| - 1
  {
    if name == ".." then None
    else
      var i := LastDot(name);
      if i <= 0 then None else Some(name[i + 1..])
  }

  /** The extension is exactly what follows a non-empty stem and a dot, when
      the extension itself has no dot. */
  lemma FileExtensionSplit(stem: string, ext: string)
    requires stem != "" && '.' !in ext && stem + "." + ext != ".."
    ensures FileExtension(stem + "." + ext) == Some(ext)
  {
    var name := stem + "." + ext;
    assert name[|stem|] == '.';
    assert name[|stem| + 1..] == ext;
  }

  /** Conversely, a file name with an extension is a non-empty stem, a dot and
      that extension. */
  lemma FileExtensionShape(name: string)
    requires FileExtension(name).Some?
    ensures var ext := FileExtension(name).value;
      && '.' !in ext && |ext| < |name| - 1
      && name == name[..|name| - |ext| - 1] + "." + ext
  {
  }

  /** Only files with extension `yaml` or `yml` are read as schemes. */
  predicate IsSchemeFile(name: string)
    ensures IsSchemeFile(name) ==>
      (|name| > 5 && name[|name| - 5..] == ".yaml") || (|name| > 4 && name[|name| - 4..] == ".yml")
  {
    if FileExtension(name) == Some("yaml") || FileExtension(name) == Some("yml") then
      FileExtensionShape(name);
      true
    else false
  }

  /** One directory entry of a scheme collection: its file name and, when the
      file can be read and parsed as a YAML mapping, its key/value pairs in
      document order (`read_yaml_file` panics otherwise). */
  datatype SchemeFile = SchemeFile(name: string, yaml: Option<seq<(Scalar, Scalar)>>)

  /** The scheme a file yields: slug from the file name, fields from the pairs. */
  function LoadScheme(f: SchemeFile): Option<Scheme> {
    match f.yaml
      case None => None
      case Some(pairs) => Dispatch(EmptyScheme(Slug(f.name)), pairs)
  }

  /** The schemes produced by a run over `files`, in order; `None` once any
      scheme file panics. Defined by peeling the last file, as the loop grows
      its prefix. */
  function SchemesOf(files: seq<SchemeFile>): Option<seq<Scheme>>
    decreases |files|
  {
    if |files| == 0 then Some([])
    else match SchemesOf(files[..|files| - 1])
      case None => None
      case Some(ss) =>
        var f := files[|files| - 1];
        if !IsSchemeFile(f.name) then Some(ss)
        else match LoadScheme(f)
          case None => None
          case Some(sc) => Some(ss + [sc])
  }

  /** The files of all collections, in directory order; `None` when an entry of
      the schemes directory cannot be listed (`read_dir(..).unwrap()`). */
  function AllFiles(dirs: seq<Option<seq<SchemeFile>>>): Option<seq<SchemeFile>>
    decreases |dirs|
  {
    if |dirs| == 0 then Some([])
    else match AllFiles(dirs[..|dirs| - 1])
      case None => None
      case Some(fs) =>
        if dirs[|dirs| - 1].None? then None else Some(fs + dirs[|dirs| - 1].value)
  }

  /** `get_schemes`: `root` lists the collections of the `schemes` directory
      (`None` when it cannot be read). */
  function GetSchemesSpec(root: Option<seq<Option<seq<SchemeFile>>>>): Option<seq<Scheme>> {
    if root.None? then None
    else match AllFiles(root.value)
      case None => None
      case Some(files) => SchemesOf(files)
  }

  /** The names of the files that are read as schemes, in order. */
  function SchemeFileNames(files: seq<SchemeFile>): seq<string>
    decreases |files|
  {
    if |files| == 0 then []
    else
      var f := files[|files| - 1];
      SchemeFileNames(files[..|files| - 1]) + (if IsSchemeFile(f.name) then [f.name] else [])
  }

  /** One scheme per `.yaml`/`.yml` file, in order, each carrying the slug of
      its own file name; other files are skipped. */
  lemma {:induction false} SchemesOfSlugs(files: seq<SchemeFile>)
    requires SchemesOf(files).Some?
    ensures var ss := SchemesOf(files).value;
      && |ss| == |SchemeFileNames(files)|
      && forall i :: 0 <= i < |ss| ==> ss[i].slug == Slug(SchemeFileNames(files)[i])
    decreases |files|
  {
    if |files| > 0 {
      SchemesOfSlugs(files[..|files| - 1]);
      var f := files[|files| - 1];
      if IsSchemeFile(f.name) {
        DispatchLastWins(EmptyScheme(Slug(f.name)), f.yaml.value);
      }
    }
  }

  /** A panic in a prefix of the files is a panic of the whole run. */
  lemma {:induction false} SchemesStayFailed(files: seq<SchemeFile>, n: nat)
    requires n <= |files| && SchemesOf(files[..n]).None?
    ensures SchemesOf(files).None?
    decreases |files| - n
  {
    if n < |files| {
      assert files[..n + 1][..n] == files[..n];
      SchemesStayFailed(files, n + 1);
    } else {
      assert files[..n] == files;
    }
  }

  /** `get_schemes`: for every collection, for every file, compute the slug; if
      the extension is `yaml` or `yml`, read the file, dispatch its pairs into a
      fresh record and push it. */
  method GetSchemes(root: Option<seq<Option<seq<SchemeFile>>>>) returns (r: Option<seq<Scheme>>)
    ensures r == GetSchemesSpec(root)
  {
    if root.None? {
      return None;
    }
    var dirs := root.value;
    var schemes: seq<Scheme> := [];
    ghost var seen: seq<SchemeFile> := [];
    var d := 0;
    while d < |dirs|
      invariant 0 <= d <= |dirs|
      invariant AllFiles(dirs[..d]) == Some(seen)
      invariant SchemesOf(seen) == Some(schemes)
    {
      assert dirs[..d + 1][..d] == dirs[..d];
      if dirs[d].None? {
        AllFilesStayFailed(dirs, d + 1);
        return None;
      }
      var loaded := LoadCollection(seen, dirs[d].value, schemes);
      if loaded.None? {
        CollectionFailureIsFatal(dirs, d, seen);
        return None;
      }
      schemes := loaded.value;
      seen := seen + dirs[d].value;
      d := d + 1;
    }
    assert dirs[..d] == dirs;
    return Some(schemes);
  }

  /** The inner loop of `get_schemes` over the files of one collection,
      continuing a run that has read the files `seen`. */
  method LoadCollection(ghost seen: seq<SchemeFile>, files: seq<SchemeFile>, schemes: seq<Scheme>)
    returns (r: Option<seq<Scheme>>)
    requires SchemesOf(seen) == Some(schemes)
    ensures r == SchemesOf(seen + files)
  {
    var acc := schemes;
    var j := 0;
    assert seen + files[..0] == seen;
    while j < |files|
      invariant 0 <= j <= |files|
      invariant SchemesOf(seen + files[..j]) == Some(acc)
    {
      var next := LoadInto(seen + files[..j], files[j], acc);
      assert seen + files[..j + 1] == (seen + files[..j]) + [files[j]];
      if next.None? {
        FailureInCollection(seen, files, j + 1);
        return None;
      }
      acc := next.value;
      j := j + 1;
    }
    assert files[..j] == files;
    return Some(acc);
  }

  /** One turn of the inner loop: skip a file that is not a scheme, or load it
      and push its record. */
  method LoadInto(ghost before: seq<SchemeFile>, f: SchemeFile, schemes: seq<Scheme>) returns (r: Option<seq<Scheme>>)
    requires SchemesOf(before) == Some(schemes)
    ensures r == SchemesOf(before + [f])
  {
    SchemesStep(before, f);
    if !IsSchemeFile(f.name) {
      return Some(schemes);
    }
    var scheme := LoadFile(f);
    if scheme.None? {
      return None;
    }
    return Some(schemes + [scheme.value]);
  }

  lemma FailureInCollection(seen: seq<SchemeFile>, files: seq<SchemeFile>, n: nat)
    requires n <= |files| && SchemesOf(seen + files[..n]).None?
    ensures SchemesOf(seen + files).None?
  {
    var a, b := files[..n], files[n..];
    SchemesFailedBefore(seen + a, b);
    assert a + b == files;
    assert (seen + a) + b == seen + (a + b);
  }

  /** One scheme file: its slug, its YAML document, its record. */
  method LoadFile(f: SchemeFile) returns (r: Option<Scheme>)
    ensures r == LoadScheme(f)
  {
    var slug := Slug(f.name);
    if f.yaml.None? {
      return None;
    }
    r := DispatchPairs(EmptyScheme(slug), f.yaml.value);
  }

  /** One more file of the listing. */
  lemma SchemesStep(files: seq<SchemeFile>, f: SchemeFile)
    ensures SchemesOf(files + [f]) ==
      match SchemesOf(files)
        case None => None
        case Some(ss) =>
          if !IsSchemeFile(f.name) then Some(ss)
          else match LoadScheme(f)
            case None => None
            case Some(sc) => Some(ss + [sc])
  {
    assert (files + [f])[..|files|] == files;
  }

  /** A collection that cannot be listed makes the whole listing fail. */
  lemma {:induction false} AllFilesStayFailed(dirs: seq<Option<seq<SchemeFile>>>, n: nat)
    requires n <= |dirs| && AllFiles(dirs[..n]).None?
    ensures AllFiles(dirs).None?
    decreases |dirs| - n
  {
    if n < |dirs| {
      assert dirs[..n + 1][..n] == dirs[..n];
      AllFilesStayFailed(dirs, n + 1);
    } else {
      assert dirs[..n] == dirs;
    }
  }

  /** A run that has panicked stays panicked, whatever files follow. */
  lemma {:induction false} SchemesFailedBefore(files: seq<SchemeFile>, more: seq<SchemeFile>)
    requires SchemesOf(files).None?
    ensures SchemesOf(files + more).None?
    decreases |more|
  {
    if |more| == 0 {
      assert files + more == files;
    } else {
      var init := more[..|more| - 1];
      SchemesFailedBefore(files, init);
      assert (files + more)[..|files + more| - 1] == files + init;
    }
  }

  /** A scheme file that panics, in a collection that lists, makes the whole
      of `get_schemes` panic. */
  lemma CollectionFailureIsFatal(dirs: seq<Option<seq<SchemeFile>>>, d: nat, seen: seq<SchemeFile>)
    requires d < |dirs| && dirs[d].Some? && AllFiles(dirs[..d]) == Some(seen)
    requires SchemesOf(seen + dirs[d].value).None?
    ensures GetSchemesSpec(Some(dirs)).None?
  {
    var files := dirs[d].value;
    assert dirs[..d + 1][..d] == dirs[..d];
    AllFilesExtends(dirs, d + 1, seen + files);
    if AllFiles(dirs).Some? {
      var rest :| AllFiles(dirs) == Some(seen + files + rest);
      var all := seen + files + rest;
      assert all[..|seen + files|] == seen + files;
      SchemesStayFailed(all, |seen + files|);
    }
  }


  /** When the listing succeeds, it extends the listing of any prefix. */
  lemma {:induction false} AllFilesExtends(dirs: seq<Option<seq<SchemeFile>>>, n: nat, pre: seq<SchemeFile>)
    requires n <= |dirs| && AllFiles(dirs[..n]) == Some(pre)
    ensures AllFiles(dirs).None? || (exists rest :: AllFiles(dirs) == Some(pre + rest))
    decreases |dirs| - n
  {
    if n == |dirs| {
      assert dirs[..n] == dirs;
      assert pre + [] == pre;
    } else {
      assert dirs[..n + 1][..n] == dirs[..n];
      if dirs[n].None? {
        AllFilesStayFailed(dirs, n + 1);
      } else {
        AllFilesExtends(dirs, n + 1, pre + dirs[n].value);
        if AllFiles(dirs).Some? {
          var rest :| AllFiles(dirs) == Some(pre + dirs[n].value + rest);
          assert pre + dirs[n].value + rest == pre + (dirs[n].value + rest);
        }
      }
    }
  }
}
