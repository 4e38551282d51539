/** Why the `HashMap` order of the slot loop of `render_template`
    (src/main.rs) does not matter for well-formed input, and what the rendered
    text then is.

    A template is read as plain characters and groups `{{w}}` (w without
    braces). `Subst` is a one-pass reference definition of rendering: it
    replaces every group that spells a known token from a set `done` by the
    token's value and keeps everything else. The central lemma `SubstStep`
    shows that one `replace` call of the source, applied to such a result,
    just adds its token to `done`; so after all 16 slots the output is
    `Subst` with every token, whatever the order. This needs the template to
    be "closed" (every "{{" opens a group) and the scheme's values to contain
    no '{'; otherwise a replacement can complete a new token next to it. */
module Substitution {
  import opened Wrappers
  import opened Strings
  import opened Schemes
  import opened Colors
  import opened Render

  /** No brace of either kind. */
  predicate NoBrace(w: string) {
    forall i :: 0 <= i < |w| ==> w[i] != '{' && w[i] != '}'
  }

  /** Length of the longest prefix of `s` without braces. */
  function BraceFreeRun(s: string): (n: nat)
    ensures n <= |s|
    ensures forall i :: 0 <= i < n ==> s[i] != '{' && s[i] != '}'
    ensures n < |s| ==> s[n] == '{' || s[n] == '}'
    decreases |s|
  {
    if |s| == 0 || s[0] == '{' || s[0] == '}' then 0 else 1 + BraceFreeRun(s[1..])
  }

  /** Length of the group `{{w}}` that `s` starts with, or 0 when it starts
      with none. */
  function GroupAt(s: string): (n: nat)
    ensures n > 0 ==> 4 <= n <= |s| && s[0] == '{' && s[1] == '{' && s[n - 2] == '}' && s[n - 1] == '}'
    ensures n > 0 ==> forall i :: 2 <= i < n - 2 ==> s[i] != '{' && s[i] != '}'
  {
    if |s| >= 4 && s[0] == '{' && s[1] == '{' then
      var w := BraceFreeRun(s[2..]);
      if w + 4 <= |s| && s[w + 2] == '}' && s[w + 3] == '}' then w + 4 else 0
    else 0
  }

  /** The group at the start of `s` is "{{", a brace-free word, "}}". */
  lemma GroupShape(s: string)
    requires GroupAt(s) > 0
    ensures var n := GroupAt(s);
      s[..n] == "{{" + s[2..n - 2] + "}}" && NoBrace(s[2..n - 2])
  {
  }

  lemma {:induction false} BraceFreeRunOf(w: string, x: string)
    requires NoBrace(w) && |x| > 0 && x[0] == '}'
    ensures BraceFreeRun(w + x) == |w|
    decreases |w|
  {
    if |w| > 0 {
      assert (w + x)[1..] == w[1..] + x;
      BraceFreeRunOf(w[1..], x);
    } else {
      assert w + x == x;
    }
  }

  /** A text that starts with a group `{{w}}` has that group at its start. */
  lemma GroupAtOf(w: string, rest: string)
    requires NoBrace(w)
    ensures GroupAt("{{" + w + "}}" + rest) == |w| + 4
  {
    var s := "{{" + w + "}}" + rest;
    assert s[2..] == w + ("}}" + rest);
    BraceFreeRunOf(w, "}}" + rest);
  }

  // ---------------------------------------------------------------------------
  // Decoding a group back into a token

  function ParseKind(s: string): Option<Kind> {
    if s == "-hex" then Some(Hex)
    else if s == "-hex-r" then Some(HexR)
    else if s == "-hex-g" then Some(HexG)
    else if s == "-hex-b" then Some(HexB)
    else if s == "-dec-r" then Some(DecR)
    else if s == "-dec-g" then Some(DecG)
    else if s == "-dec-b" then Some(DecB)
    else if s == "-hex-bgr" then Some(HexBgr)
    else None
  }

  /** The token whose name is `w`, if any. */
  function ParseName(w: string): Option<Token> {
    if w == "scheme-name" then Some(SchemeName)
    else if w == "scheme-author" then Some(SchemeAuthor)
    else if |w| >= 6 then
      match (SlotOfKey(w[..6]), ParseKind(w[6..]))
        case (Some(k), Some(kind)) => Some(SlotToken(k, kind))
        case _ => None
    else None
  }

  /** The token a group `{{w}}` spells, if any. */
  function ParseToken(g: string): Option<Token> {
    if |g| >= 4 && g[..2] == "{{" && g[|g| - 2..] == "}}" then ParseName(g[2..|g| - 2]) else None
  }

  lemma ParseKindSound(s: string)
    requires ParseKind(s).Some?
    ensures KindSuffix(ParseKind(s).value) == s
  {
  }

  lemma ParseKindRoundTrip(kind: Kind)
    ensures ParseKind(KindSuffix(kind)) == Some(kind)
  {
    match kind {
      case Hex =>
      case HexR =>
      case HexG =>
      case HexB =>
      case DecR =>
      case DecG =>
      case DecB =>
      case HexBgr =>
    }
  }

  lemma ParseNameRoundTrip(tok: Token)
    ensures ParseName(TokenName(tok)) == Some(tok)
  {
    if tok.SlotToken? {
      var w := TokenName(tok);
      assert w[..6] == SlotName(tok.slot);
      assert w[6..] == KindSuffix(tok.kind);
      assert w[0] == 'b';
      ParseKindRoundTrip(tok.kind);
    }
  }

  /** Decoding inverts the spelling of every token. */
  lemma ParseTokenRoundTrip(tok: Token)
    ensures ParseToken(TokenText(tok)) == Some(tok)
  {
    var g := TokenText(tok);
    assert g[..2] == "{{" && g[|g| - 2..] == "}}";
    assert g[2..|g| - 2] == TokenName(tok);
    ParseNameRoundTrip(tok);
  }

  /** A group decodes to a token only if it spells exactly that token. */
  lemma ParseTokenSound(g: string)
    requires ParseToken(g).Some?
    ensures TokenText(ParseToken(g).value) == g
  {
    var w := g[2..|g| - 2];
    var tok := ParseToken(g).value;
    if tok.SlotToken? {
      ParseKindSound(w[6..]);
      assert w == w[..6] + w[6..];
    }
    assert g == g[..2] + w + g[|g| - 2..];
  }

  /** Different tokens are spelled differently. */
  lemma TokenTextInjective(a: Token, b: Token)
    requires TokenText(a) == TokenText(b)
    ensures a == b
  {
    ParseTokenRoundTrip(a);
    ParseTokenRoundTrip(b);
  }

  lemma TokenNameNoBrace(tok: Token)
    ensures NoBrace(TokenName(tok))
  {
    match tok
      case SchemeName =>
      case SchemeAuthor =>
      case SlotToken(k, kind) =>
        var c := UpperHexDigit(k);
        assert c != '{' && c != '}';
        NoBraceConcat("base0", [c]);
        KindSuffixNoBrace(kind);
        NoBraceConcat(SlotName(k), KindSuffix(kind));
  }

  lemma KindSuffixNoBrace(kind: Kind)
    ensures NoBrace(KindSuffix(kind))
  {
  }

  lemma NoBraceConcat(a: string, b: string)
    requires NoBrace(a) && NoBrace(b)
    ensures NoBrace(a + b)
  {
    assert forall i :: |a| <= i < |a + b| ==> (a + b)[i] == b[i - |a|];
  }

  // ---------------------------------------------------------------------------
  // Closed templates and brace-free schemes

  /** Every "{{" of `t` opens a group `{{w}}`. */
  predicate Closed(t: string)
    decreases |t|
  {
    |t| < 2 || ((t[0] == '{' && t[1] == '{' ==> GroupAt(t) > 0) && Closed(t[1..]))
  }

  lemma {:induction false} ClosedSuffix(t: string, i: nat)
    requires Closed(t) && i <= |t|
    ensures Closed(t[i..])
    decreases i
  {
    if i > 0 {
      if |t| >= 2 {
        ClosedSuffix(t[1..], i - 1);
        assert t[1..][i - 1..] == t[i..];
      }
    } else {
      assert t[0..] == t;
    }
  }

  /** Text without '{' in front of a closed text keeps it closed. */
  lemma {:induction false} ClosedPlain(a: string, rest: string)
    requires '{' !in a && Closed(rest)
    ensures Closed(a + rest)
    decreases |a|
  {
    if |a| == 0 {
      assert a + rest == rest;
    } else {
      assert (a + rest)[1..] == a[1..] + rest;
      ClosedPlain(a[1..], rest);
    }
  }

  /** A group in front of a closed text keeps it closed. */
  lemma ClosedGroup(w: string, rest: string)
    requires NoBrace(w) && Closed(rest)
    ensures Closed("{{" + w + "}}" + rest)
  {
    var s := "{{" + w + "}}" + rest;
    GroupAtOf(w, rest);
    assert s[1..][1..] == (w + "}}") + rest;
    ClosedPlain(w + "}}", rest);
  }

  /** Neither the name, nor the author, nor any slot value contains '{'. */
  predicate BraceFreeScheme(sc: Scheme) {
    '{' !in sc.name && '{' !in sc.author && forall k: Slot :: '{' !in sc.slots[k]
  }

  lemma SliceKeepsAbsent(v: string, i: nat, j: nat, c: char)
    requires i <= j <= |v| && c !in v
    ensures c !in v[i..j]
  {
  }

  /** The value a token is replaced by contains no '{' when the scheme's
      values contain none. */
  lemma ReplacementBraceFree(sc: Scheme, tok: Token)
    requires BraceFreeScheme(sc) && Replacement(sc, tok).Some?
    ensures '{' !in Replacement(sc, tok).value
  {
    if tok.SlotToken? {
      var v := sc.slots[tok.slot];
      var ch := SplitChannels(v).value;
      SliceKeepsAbsent(v, 0, 2, '{');
      SliceKeepsAbsent(v, 2, 4, '{');
      SliceKeepsAbsent(v, 4, 6, '{');
    }
  }

  // ---------------------------------------------------------------------------
  // The one-pass reference rendering

  /** What a group becomes: the value of the token it spells when that token is
      in `done` (and its slot parses), the group itself otherwise. */
  function GroupValue(g: string, sc: Scheme, done: set<Token>): string {
    match ParseToken(g)
      case Some(tok) => if tok in done && Replacement(sc, tok).Some? then Replacement(sc, tok).value else g
      case None => g
  }

  /** Replace, in one left-to-right pass, every group of `t` that spells a token
      of `done` by that token's value. */
  function Subst(t: string, sc: Scheme, done: set<Token>): string
    decreases |t|
  {
    if |t| == 0 then []
    else
      var n := GroupAt(t);
      if n == 0 then [t[0]] + Subst(t[1..], sc, done)
      else GroupValue(t[..n], sc, done) + Subst(t[n..], sc, done)
  }

  /** With no token to replace, `Subst` is the identity. */
  lemma {:induction false} SubstNothing(t: string, sc: Scheme)
    ensures Subst(t, sc, {}) == t
    decreases |t|
  {
    if |t| > 0 {
      var n := GroupAt(t);
      if n == 0 {
        SubstNothing(t[1..], sc);
        SplitHead(t);
      } else {
        SubstNothing(t[n..], sc);
        SplitAt(t, n);
      }
    }
  }

  lemma SubstHead(s: string, sc: Scheme, done: set<Token>)
    requires |s| > 0 && s[0] != '{'
    ensures |Subst(s, sc, done)| > 0 && Subst(s, sc, done)[0] == s[0]
  {
  }

  /** A group does not start with a different group. */
  lemma GroupNotOther(w: string, x: string, u: string)
    requires NoBrace(w) && NoBrace(u) && w != u
    ensures !StartsWith("{{" + w + "}}" + x, "{{" + u + "}}")
  {
    var g, p := "{{" + w + "}}", "{{" + u + "}}";
    var s := g + x;
    if |u| < |w| {
      assert s[..|p|][2 + |u|] == w[|u|] != p[2 + |u|];
    } else if |u| > |w| {
      if |p| <= |s| {
        assert s[..|p|][2 + |w|] == '}' != p[2 + |w|];
      }
    } else {
      assert g[2..|g| - 2] == w && p[2..|p| - 2] == u;
      assert s[..|p|] == g;
    }
  }

  /** The second character of a group is not followed by '{'. */
  lemma GroupTailNotPattern(w: string, x: string, p: string)
    requires NoBrace(w) && |p| >= 2 && p[1] == '{'
    ensures !StartsWith(("{{" + w + "}}" + x)[1..], p)
  {
    var s := ("{{" + w + "}}" + x)[1..];
    assert s[1] == (if |w| > 0 then w[0] else '}');
  }

  /** A group that is not the pattern passes through `replace`: neither it nor
      any of its suffixes starts an occurrence of a different group. */
  lemma PassGroup(w: string, x: string, u: string, r: string)
    requires NoBrace(w) && NoBrace(u) && w != u
    ensures ReplaceAll("{{" + w + "}}" + x, "{{" + u + "}}", r) == "{{" + w + "}}" + ReplaceAll(x, "{{" + u + "}}", r)
  {
    var p := "{{" + u + "}}";
    var y := ['{'] + ((w + "}}") + x);
    GroupSplit(w, x);
    GroupNotOther(w, x, u);
    GroupTailNotPattern(w, x, p);
    ReplaceSkip('{', y, p, r);
    ReplaceSkip('{', (w + "}}") + x, p, r);
    assert '{' !in w + "}}";
    ReplacePassesPrefix(w + "}}", x, p, r);
    GroupSplit(w, ReplaceAll(x, p, r));
  }

  /** A group followed by text, one opening brace at a time. */
  lemma GroupSplit(w: string, x: string)
    ensures "{{" + w + "}}" + x == ['{'] + (['{'] + ((w + "}}") + x))
    ensures ("{{" + w + "}}" + x)[1..] == ['{'] + ((w + "}}") + x)
  {
  }

  /** A lone '{' that is not followed by another passes through `replace`. */
  lemma PassOpenBrace(x: string, p: string, r: string)
    requires |p| >= 2 && p[0] == '{' && p[1] == '{' && (|x| == 0 || x[0] != '{')
    ensures ReplaceAll("{" + x, p, r) == "{" + ReplaceAll(x, p, r)
  {
    assert ("{" + x)[1..] == x;
  }

  /** An occurrence of the pattern at the front is replaced. */
  lemma ReplaceFront(p: string, x: string, r: string)
    requires |p| > 0
    ensures ReplaceAll(p + x, p, r) == r + ReplaceAll(x, p, r)
  {
    assert (p + x)[..|p|] == p;
    assert (p + x)[|p|..] == x;
  }

  /** One `replace` call of the source adds its token to `done`. */
  lemma {:induction false} SubstStep(t: string, sc: Scheme, done: set<Token>, tok: Token)
    requires Closed(t) && BraceFreeScheme(sc) && Replacement(sc, tok).Some?
    ensures ReplaceAll(Subst(t, sc, done), TokenText(tok), Replacement(sc, tok).value)
         == Subst(t, sc, done + {tok})
    decreases |t|
  {
    var p, r := TokenText(tok), Replacement(sc, tok).value;
    if |t| > 0 {
      var n := GroupAt(t);
      if n == 0 {
        ClosedSuffix(t, 1);
        SubstStep(t[1..], sc, done, tok);
        var x := Subst(t[1..], sc, done);
        if t[0] == '{' {
          if |t| >= 2 {
            SubstHead(t[1..], sc, done);
          }
          PassOpenBrace(x, p, r);
        } else {
          ReplacePassesPrefix([t[0]], x, p, r);
        }
      } else {
        ClosedSuffix(t, n);
        SubstStep(t[n..], sc, done, tok);
        SubstStepGroup(t, sc, done, tok);
      }
    }
  }

  /** The step of `SubstStep` at a group: the group's value passes through the
      `replace` call, or is the token's own occurrence and is replaced. */
  lemma SubstStepGroup(t: string, sc: Scheme, done: set<Token>, tok: Token)
    requires BraceFreeScheme(sc) && Replacement(sc, tok).Some? && GroupAt(t) > 0
    requires var n := GroupAt(t);
      ReplaceAll(Subst(t[n..], sc, done), TokenText(tok), Replacement(sc, tok).value) == Subst(t[n..], sc, done + {tok})
    ensures ReplaceAll(Subst(t, sc, done), TokenText(tok), Replacement(sc, tok).value)
         == Subst(t, sc, done + {tok})
  {
    var p, r := TokenText(tok), Replacement(sc, tok).value;
    var n := GroupAt(t);
    var g := t[..n];
    var x := Subst(t[n..], sc, done);
    var tk := ParseToken(g);
    if tk.Some? && tk.value in done && Replacement(sc, tk.value).Some? {
      ReplacementBraceFree(sc, tk.value);
      ReplacePassesPrefix(Replacement(sc, tk.value).value, x, p, r);
    } else if tk == Some(tok) {
      ParseTokenSound(g);
      ReplaceFront(p, x, r);
    } else {
      GroupShape(t);
      TokenNameNoBrace(tok);
      if g[2..n - 2] == TokenName(tok) {
        ParseTokenRoundTrip(tok);
      }
      PassGroup(g[2..n - 2], x, TokenName(tok), r);
    }
  }

  /** The elements of a sequence of tokens. */
  function TokenSet(toks: seq<Token>): set<Token> {
    set tok | tok in toks
  }

  /** The replacements of one slot step add the step's tokens to `done`. */
  lemma {:induction false} ReplaceTokensSubst(t: string, sc: Scheme, done: set<Token>, toks: seq<Token>)
    requires Closed(t) && BraceFreeScheme(sc)
    requires forall i :: 0 <= i < |toks| ==> Replacement(sc, toks[i]).Some?
    ensures ReplaceTokens(Subst(t, sc, done), sc, toks) == Subst(t, sc, done + TokenSet(toks))
    decreases |toks|
  {
    if |toks| == 0 {
      assert done + TokenSet(toks) == done;
    } else {
      SubstStep(t, sc, done, toks[0]);
      ReplaceTokensSubst(t, sc, done + {toks[0]}, toks[1..]);
      assert done + {toks[0]} + TokenSet(toks[1..]) == done + TokenSet(toks);
    }
  }

  /** The tokens replaced while visiting the slots of `order`. */
  function Visited(order: seq<Slot>): set<Token>
    decreases |order|
  {
    if |order| == 0 then {} else TokenSet(StepTokens(order[0])) + Visited(order[1..])
  }

  /** The slot loop turns a `Subst` result into a `Subst` result. */
  lemma {:induction false} RenderFromSubst(t: string, sc: Scheme, done: set<Token>, order: seq<Slot>)
    requires Closed(t) && BraceFreeScheme(sc) && AllSlotsParse(sc)
    ensures RenderFrom(Subst(t, sc, done), sc, order) == Some(Subst(t, sc, done + Visited(order)))
    decreases |order|
  {
    if |order| == 0 {
      assert done + Visited(order) == done;
    } else {
      var k := order[0];
      StepValues(sc, k);
      ReplaceTokensSubst(t, sc, done, StepTokens(k));
      RenderFromSubst(t, sc, done + TokenSet(StepTokens(k)), order[1..]);
      assert done + TokenSet(StepTokens(k)) + Visited(order[1..]) == done + Visited(order);
    }
  }

  /** The tokens a non-empty order visits: the name, the author, and every
      per-slot token of every slot in the order. */
  lemma {:induction false} VisitedMembers(order: seq<Slot>, tok: Token)
    ensures tok in Visited(order) <==>
      |order| > 0 && (tok.SchemeName? || tok.SchemeAuthor? || (tok.SlotToken? && tok.slot in order))
    decreases |order|
  {
    if |order| > 0 {
      VisitedMembers(order[1..], tok);
      var steps := StepTokens(order[0]);
      if tok.SlotToken? && tok.slot == order[0] {
        StepTokensOfSlot(tok.slot, tok.kind);
      }
      if tok.SlotToken? && tok.slot in order && tok.slot != order[0] {
        var i :| 0 <= i < |order| && order[i] == tok.slot;
        assert order[1..][i - 1] == tok.slot;
      }
      assert steps[0] == SchemeName && steps[1] == SchemeAuthor;
    }
  }

  /** Visiting slot `k` replaces each of its eight tokens. */
  lemma StepTokensOfSlot(k: Slot, kind: Kind)
    ensures SlotToken(k, kind) in StepTokens(k)
  {
    var steps := StepTokens(k);
    match kind {
      case Hex => assert steps[2] == SlotToken(k, kind);
      case HexR => assert steps[3] == SlotToken(k, kind);
      case HexG => assert steps[4] == SlotToken(k, kind);
      case HexB => assert steps[5] == SlotToken(k, kind);
      case DecR => assert steps[6] == SlotToken(k, kind);
      case DecG => assert steps[7] == SlotToken(k, kind);
      case DecB => assert steps[8] == SlotToken(k, kind);
      case HexBgr => assert steps[9] == SlotToken(k, kind);
    }
  }

  /** A full visit order visits every token. */
  lemma VisitOrderComplete(order: seq<Slot>, tok: Token)
    requires IsVisitOrder(order)
    ensures tok in Visited(order)
  {
    VisitedMembers(order, tok);
  }

  /** The order the slots are inserted in: base00 .. base0F. */
  function InsertionOrder(): (order: seq<Slot>)
    ensures IsVisitOrder(order)
  {
    var order: seq<Slot> := [0, 1, 2, 3, 4, 5, 6, 7, 8, 9, 10, 11, 12, 13, 14, 15];
    assert forall k: Slot :: order[k] == k;
    order
  }

  /** The eight per-slot kinds. */
  function AllKinds(): seq<Kind> {
    [Hex, HexR, HexG, HexB, DecR, DecG, DecB, HexBgr]
  }

  /** Every token: the name, the author and the eight kinds of each slot. */
  function AllTokens(): set<Token> {
    {SchemeName, SchemeAuthor} + set k: int, kind | 0 <= k < 16 && kind in AllKinds() :: SlotToken(k, kind)
  }

  lemma AllTokensComplete(tok: Token)
    ensures tok in AllTokens()
  {
    if tok.SlotToken? {
      var kinds := AllKinds();
      match tok.kind {
        case Hex => assert kinds[0] == tok.kind;
        case HexR => assert kinds[1] == tok.kind;
        case HexG => assert kinds[2] == tok.kind;
        case HexB => assert kinds[3] == tok.kind;
        case DecR => assert kinds[4] == tok.kind;
        case DecG => assert kinds[5] == tok.kind;
        case DecB => assert kinds[6] == tok.kind;
        case HexBgr => assert kinds[7] == tok.kind;
      }
    }
  }

  /** A full visit order visits every token, and so the same set as any other. */
  lemma VisitOrderVisitsAll(order: seq<Slot>)
    requires IsVisitOrder(order)
    ensures Visited(order) == AllTokens()
  {
    forall tok: Token
      ensures tok in Visited(order) <==> tok in AllTokens()
    {
      VisitOrderComplete(order, tok);
      AllTokensComplete(tok);
    }
  }

  // ---------------------------------------------------------------------------
  // What rendering computes

  /** The rendered text is the one-pass substitution of every token, when the
      template is closed, no scheme value contains '{' and every slot parses. */
  lemma RenderIsSubst(t: string, sc: Scheme, order: seq<Slot>)
    requires Closed(t) && BraceFreeScheme(sc) && AllSlotsParse(sc) && IsVisitOrder(order)
    ensures RenderFrom(t, sc, order) == Some(Subst(t, sc, AllTokens()))
  {
    SubstNothing(t, sc);
    RenderFromSubst(t, sc, {}, order);
    VisitOrderVisitsAll(order);
    assert {} + Visited(order) == AllTokens();
  }

  /** Order independence: for a closed template and a scheme whose values
      contain no '{', every iteration order of the `HashMap` renders the same
      text (or every one panics). */
  lemma RenderOrderIndependent(t: string, sc: Scheme, o1: seq<Slot>, o2: seq<Slot>)
    requires Closed(t) && BraceFreeScheme(sc) && IsVisitOrder(o1) && IsVisitOrder(o2)
    ensures RenderFrom(t, sc, o1) == RenderFrom(t, sc, o2)
  {
    RenderFailsIff(t, sc, o1);
    RenderFailsIff(t, sc, o2);
    if AllSlotsParse(sc) {
      RenderIsSubst(t, sc, o1);
      RenderIsSubst(t, sc, o2);
    }
  }

  /** Once every token has been substituted, replacing a token again changes
      nothing. */
  lemma SubstAllFixed(t: string, sc: Scheme, tok: Token)
    requires Closed(t) && BraceFreeScheme(sc) && AllSlotsParse(sc)
    ensures Replacement(sc, tok).Some?
    ensures ReplaceAll(Subst(t, sc, AllTokens()), TokenText(tok), Replacement(sc, tok).value)
         == Subst(t, sc, AllTokens())
  {
    AllTokensComplete(tok);
    assert AllTokens() + {tok} == AllTokens();
    SubstStep(t, sc, AllTokens(), tok);
  }

  /** A text that `replace` leaves unchanged, for a pattern opening with '{'
      and a replacement without '{', does not contain the pattern. */
  lemma FixedHasNoOccurrence(x: string, p: string, r: string)
    requires |p| > 0 && p[0] == '{' && '{' !in r && ReplaceAll(x, p, r) == x
    ensures !Occurs(x, p)
  {
    ReplaceReducesCount(x, p, r, '{');
  }

  /** No token survives rendering, and so repeating any of the source's
      `replace` calls on the result (as later loop iterations do for
      `{{scheme-name}}` and `{{scheme-author}}`) changes nothing. */
  lemma RenderLeavesNoToken(t: string, sc: Scheme, order: seq<Slot>, tok: Token)
    requires Closed(t) && BraceFreeScheme(sc) && AllSlotsParse(sc) && IsVisitOrder(order)
    ensures RenderFrom(t, sc, order).Some?
    ensures !Occurs(RenderFrom(t, sc, order).value, TokenText(tok))
    ensures ReplaceAll(RenderFrom(t, sc, order).value, TokenText(tok), Replacement(sc, tok).value)
         == RenderFrom(t, sc, order).value
  {
    RenderIsSubst(t, sc, order);
    SubstAllFixed(t, sc, tok);
    ReplacementBraceFree(sc, tok);
    TokenTextShape(tok);
    assert TokenText(tok)[0] == '{';
    FixedHasNoOccurrence(Subst(t, sc, AllTokens()), TokenText(tok), Replacement(sc, tok).value);
  }

  /** A token group becomes its value when the token is in `done`, and stays
      verbatim otherwise. */
  lemma SubstTokenGroup(tok: Token, rest: string, sc: Scheme, done: set<Token>)
    ensures Subst(TokenText(tok) + rest, sc, done)
         == (if tok in done && Replacement(sc, tok).Some? then Replacement(sc, tok).value else TokenText(tok))
            + Subst(rest, sc, done)
  {
    var s := TokenText(tok) + rest;
    TokenNameNoBrace(tok);
    GroupAtOf(TokenName(tok), rest);
    assert s[..|TokenText(tok)|] == TokenText(tok);
    assert s[|TokenText(tok)|..] == rest;
    ParseTokenRoundTrip(tok);
  }

  /** A group that spells no token, such as `{{foo}}` or `{{scheme-slug}}`, is
      kept verbatim. */
  lemma SubstUnknownGroup(w: string, rest: string, sc: Scheme, done: set<Token>)
    requires NoBrace(w) && ParseName(w).None?
    ensures Subst("{{" + w + "}}" + rest, sc, done) == "{{" + w + "}}" + Subst(rest, sc, done)
  {
    var g := "{{" + w + "}}";
    var s := g + rest;
    GroupAtOf(w, rest);
    assert s[..|g|] == g;
    assert s[|g|..] == rest;
    assert g[2..|g| - 2] == w;
  }

  /** Text without '{' is kept verbatim. */
  lemma {:induction false} SubstPlain(a: string, rest: string, sc: Scheme, done: set<Token>)
    requires '{' !in a
    ensures Subst(a + rest, sc, done) == a + Subst(rest, sc, done)
    decreases |a|
  {
    if |a| == 0 {
      assert a + rest == rest;
    } else {
      var c, tail := a[0], a[1..];
      assert a == [c] + tail;
      Assoc([c], tail, rest);
      SubstNoGroup(c, tail + rest, sc, done);
      SubstPlain(tail, rest, sc, done);
      Assoc([c], tail, Subst(rest, sc, done));
    }
  }

  /** A character other than '{' is kept and the pass goes on after it. */
  lemma SubstNoGroup(c: char, s: string, sc: Scheme, done: set<Token>)
    requires c != '{'
    ensures Subst([c] + s, sc, done) == [c] + Subst(s, sc, done)
  {
    var t := [c] + s;
    assert GroupAt(t) == 0;
    assert t[1..] == s;
  }

  /** The template of `TokenEverywhere` is closed. */
  lemma TwoTokenTemplateClosed(tok: Token, a: string, w: string, b: string)
    requires '{' !in a && '{' !in b && NoBrace(w)
    ensures var p, g := TokenText(tok), "{{" + w + "}}";
      Closed(p + (a + (g + (b + p))))
  {
    var p, g := TokenText(tok), "{{" + w + "}}";
    TokenNameNoBrace(tok);
    ClosedGroup(TokenName(tok), []);
    AppendEmpty(p);
    ClosedPlain(b, p);
    ClosedGroup(w, b + p);
    ClosedPlain(a, g + (b + p));
    ClosedGroup(TokenName(tok), a + (g + (b + p)));
  }

  /** The substitution of the template of `TokenEverywhere`, piece by piece. */
  lemma TwoTokenTemplateSubst(sc: Scheme, tok: Token, a: string, w: string, b: string)
    requires '{' !in a && '{' !in b && NoBrace(w) && ParseName(w).None? && Replacement(sc, tok).Some?
    ensures var p, g, v := TokenText(tok), "{{" + w + "}}", Replacement(sc, tok).value;
      Subst(p + (a + (g + (b + p))), sc, AllTokens()) == v + (a + (g + (b + v)))
  {
    var p, g := TokenText(tok), "{{" + w + "}}";
    var all := AllTokens();
    AllTokensComplete(tok);
    SubstTokenGroup(tok, [], sc, all);
    AppendEmpty(p);
    AppendEmpty(Replacement(sc, tok).value);
    SubstPlain(b, p, sc, all);
    SubstUnknownGroup(w, b + p, sc, all);
    SubstPlain(a, g + (b + p), sc, all);
    SubstTokenGroup(tok, a + (g + (b + p)), sc, all);
  }

  /** Every occurrence of a token (for instance `{{scheme-name}}`) becomes
      its value, and a group that spells no token, such as `{{scheme-slug}}`
      (which the renderer does not know), stays verbatim. */
  lemma TokenEverywhere(sc: Scheme, order: seq<Slot>, tok: Token, a: string, w: string, b: string)
    requires BraceFreeScheme(sc) && AllSlotsParse(sc) && IsVisitOrder(order)
    requires '{' !in a && '{' !in b && NoBrace(w) && ParseName(w).None?
    ensures Replacement(sc, tok).Some?
    ensures var p, g, v := TokenText(tok), "{{" + w + "}}", Replacement(sc, tok).value;
      RenderFrom(p + (a + (g + (b + p))), sc, order) == Some(v + (a + (g + (b + v))))
  {
    var p, g := TokenText(tok), "{{" + w + "}}";
    var t := p + (a + (g + (b + p)));
    TwoTokenTemplateClosed(tok, a, w, b);
    RenderIsSubst(t, sc, order);
    TwoTokenTemplateSubst(sc, tok, a, w, b);
  }

  // ---------------------------------------------------------------------------
  // A group that spells no token is a barrier, for any template and scheme

  /** An occurrence of a group pattern at the front of `a + x`, where `x`
      opens with "{{", lies inside `a`: it cannot run into the "{{". */
  lemma GroupNotStraddled(a: string, x: string, u: string)
    requires |a| > 0 && NoBrace(u) && |x| >= 2 && x[0] == '{' && x[1] == '{'
    requires StartsWith(a + x, "{{" + u + "}}")
    ensures StartsWith(a, "{{" + u + "}}")
  {
    var p, s := "{{" + u + "}}", a + x;
    GroupPatternTail(u);
    assert s[|a|] == '{' && s[|a| + 1] == '{';
    if |a| < |p| {
      assert false;
    }
    assert s[..|p|] == a[..|p|];
  }

  /** After its opening "{{", a group pattern holds no '{'. */
  lemma GroupPatternTail(u: string)
    requires NoBrace(u)
    ensures var p := "{{" + u + "}}"; forall j :: 2 <= j < |p| ==> p[j] != '{'
  {
    var p := "{{" + u + "}}";
    assert forall j :: 2 <= j < |p| ==> p[j] == (if j < |u| + 2 then u[j - 2] else '}');
  }

  /** `replace` of one group pattern works on the text before and the text
      after a group `{{w}}` that is not the pattern, and keeps `{{w}}`. */
  lemma {:induction false} UnknownGroupBarrier(a: string, w: string, b: string, u: string, r: string)
    requires NoBrace(w) && NoBrace(u) && w != u
    ensures var g, p := "{{" + w + "}}", "{{" + u + "}}";
      ReplaceAll(a + (g + b), p, r) == ReplaceAll(a, p, r) + (g + ReplaceAll(b, p, r))
    decreases |a|
  {
    var g, p := "{{" + w + "}}", "{{" + u + "}}";
    var s := a + (g + b);
    if |a| == 0 {
      assert s == g + b;
      PassGroup(w, b, u, r);
    } else if StartsWith(s, p) {
      GroupNotStraddled(a, g + b, u);
      var a' := a[|p|..];
      assert s[|p|..] == a' + (g + b);
      UnknownGroupBarrier(a', w, b, u, r);
      Assoc(r, ReplaceAll(a', p, r), g + ReplaceAll(b, p, r));
    } else {
      if StartsWith(a, p) {
        StartsWithAppend(a, g + b, p);
      }
      var a' := a[1..];
      assert s[1..] == a' + (g + b);
      UnknownGroupBarrier(a', w, b, u, r);
      Assoc([a[0]], ReplaceAll(a', p, r), g + ReplaceAll(b, p, r));
    }
  }

  /** The replacements of a slot keep a group that spells no token, and work
      on either side of it separately. */
  lemma {:induction false} ReplaceTokensKeepsUnknownGroup(a: string, w: string, b: string, sc: Scheme, toks: seq<Token>)
    requires NoBrace(w) && ParseName(w).None?
    requires forall i :: 0 <= i < |toks| ==> Replacement(sc, toks[i]).Some?
    ensures var g := "{{" + w + "}}";
      ReplaceTokens(a + (g + b), sc, toks) == ReplaceTokens(a, sc, toks) + (g + ReplaceTokens(b, sc, toks))
    decreases |toks|
  {
    if |toks| > 0 {
      var tok := toks[0];
      var p, v := TokenText(tok), Replacement(sc, tok).value;
      TokenNameNoBrace(tok);
      ParseNameRoundTrip(tok);
      UnknownGroupBarrier(a, w, b, TokenName(tok), v);
      ReplaceTokensKeepsUnknownGroup(ReplaceAll(a, p, v), w, ReplaceAll(b, p, v), sc, toks[1..]);
    }
  }

  /** One iteration of the slot loop keeps a group that spells no token. */
  lemma RenderSlotKeepsUnknownGroup(a: string, w: string, b: string, sc: Scheme, k: Slot)
    requires NoBrace(w) && ParseName(w).None?
    ensures var g := "{{" + w + "}}";
      RenderSlot(a + (g + b), sc, k)
        == if SplitChannels(sc.slots[k]).None? then None
           else Some(RenderSlot(a, sc, k).value + (g + RenderSlot(b, sc, k).value))
  {
    if SplitChannels(sc.slots[k]).Some? {
      ReplaceTokensKeepsUnknownGroup(a, w, b, sc, StepTokens(k));
    }
  }

  /** Rendering keeps a group that spells no token, such as `{{scheme-slug}}`,
      verbatim and renders the text on either side of it independently, for
      any template, scheme and visit order: a replacement can never reach
      across it. */
  lemma {:induction false} RenderFromKeepsUnknownGroup(a: string, w: string, b: string, sc: Scheme, order: seq<Slot>)
    requires NoBrace(w) && ParseName(w).None?
    ensures RenderFrom(a, sc, order).Some? == RenderFrom(b, sc, order).Some?
    ensures var g := "{{" + w + "}}";
      RenderFrom(a + (g + b), sc, order)
        == if RenderFrom(a, sc, order).None? then None
           else Some(RenderFrom(a, sc, order).value + (g + RenderFrom(b, sc, order).value))
    decreases |order|
  {
    if |order| > 0 {
      var k := order[0];
      RenderSlotKeepsUnknownGroup(a, w, b, sc, k);
      if SplitChannels(sc.slots[k]).Some? {
        RenderFromKeepsUnknownGroup(RenderSlot(a, sc, k).value, w, RenderSlot(b, sc, k).value, sc, order[1..]);
      }
    }
  }

  /** `{{scheme-slug}}` is not a token of the renderer. */
  lemma SchemeSlugUnknown()
    ensures ParseName("scheme-slug").None? && NoBrace("scheme-slug")
  {
  }
}
