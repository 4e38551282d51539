/** `render_template` (src/main.rs): the placeholder tokens, the ten string
    replacements made for each colour slot, and the loop over the slots in
    the iteration order of the source's `HashMap`. */
module Render {
  import opened Wrappers
  import opened Strings
  import opened Schemes
  import opened Colors

  /** The eight per-slot placeholders. */
  datatype Kind = Hex | HexR | HexG | HexB | DecR | DecG | DecB | HexBgr

  function KindSuffix(kind: Kind): string {
    match kind
      case Hex => "-hex"
      case HexR => "-hex-r"
      case HexG => "-hex-g"
      case HexB => "-hex-b"
      case DecR => "-dec-r"
      case DecG => "-dec-g"
      case DecB => "-dec-b"
      case HexBgr => "-hex-bgr"
  }

  /** Every placeholder the renderer knows. */
  datatype Token = SchemeName | SchemeAuthor | SlotToken(slot: Slot, kind: Kind)

  /** The text between the braces of a token. */
  function TokenName(tok: Token): string {
    match tok
      case SchemeName => "scheme-name"
      case SchemeAuthor => "scheme-author"
      case SlotToken(k, kind) => SlotName(k) + KindSuffix(kind)
  }

  /** The placeholder as it is written in a template: `{{name}}`. */
  function TokenText(tok: Token): string {
    "{{" + TokenName(tok) + "}}"
  }

  /** The tokens replaced while visiting slot `k`, in the order of the ten
      `replace` calls of the loop body. */
  function StepTokens(k: Slot): seq<Token> {
    [SchemeName, SchemeAuthor,
     SlotToken(k, Hex), SlotToken(k, HexR), SlotToken(k, HexG), SlotToken(k, HexB),
     SlotToken(k, DecR), SlotToken(k, DecG), SlotToken(k, DecB), SlotToken(k, HexBgr)]
  }

  /** The text a per-slot token of value `v` (with channels `ch`) becomes. */
  function KindValue(v: string, ch: Channels, kind: Kind): string {
    match kind
      case Hex => v
      case HexR => ch.hexR
      case HexG => ch.hexG
      case HexB => ch.hexB
      case DecR => IntString(ch.decR)
      case DecG => IntString(ch.decG)
      case DecB => IntString(ch.decB)
      case HexBgr => ch.hexB + ch.hexG + ch.hexR
  }

  /** The text a token becomes for scheme `sc`; `None` for a token of a slot
      whose value makes the source panic. */
  function Replacement(sc: Scheme, tok: Token): (r: Option<string>)
    ensures r.None? <==> tok.SlotToken? && SplitChannels(sc.slots[tok.slot]).None?
  {
    match tok
      case SchemeName => Some(sc.name)
      case SchemeAuthor => Some(sc.author)
      case SlotToken(k, kind) =>
        match SplitChannels(sc.slots[k])
          case None => None
          case Some(ch) => Some(KindValue(sc.slots[k], ch, kind))
  }

  /** Replace the tokens of `toks` one after another, each everywhere in the
      text, left to right, by its replacement. */
  function ReplaceTokens(content: string, sc: Scheme, toks: seq<Token>): string
    requires forall i :: 0 <= i < |toks| ==> Replacement(sc, toks[i]).Some?
    decreases |toks|
  {
    if |toks| == 0 then content
    else ReplaceTokens(ReplaceAll(content, TokenText(toks[0]), Replacement(sc, toks[0]).value), sc, toks[1..])
  }

  /** One iteration of the slot loop: `None` when the slot's value panics. */
  function RenderSlot(content: string, sc: Scheme, k: Slot): (r: Option<string>)
    ensures (forall tok: Token :: !Occurs(content, TokenText(tok))) ==> r == None || r == Some(content)
  {
    if SplitChannels(sc.slots[k]).None? then None
    else
      ReplaceTokensUntouched(content, sc, StepTokens(k));
      Some(ReplaceTokens(content, sc, StepTokens(k)))
  }

  /** The slot loop, visiting the slots in `order`. */
  function RenderFrom(content: string, sc: Scheme, order: seq<Slot>): (r: Option<string>)
    ensures r.Some? ==> forall i :: 0 <= i < |order| ==> SplitChannels(sc.slots[order[i]]).Some?
    decreases |order|
  {
    if |order| == 0 then Some(content)
    else match RenderSlot(content, sc, order[0])
      case None => None
      case Some(c) => RenderFrom(c, sc, order[1..])
  }

  /** An iteration order of the 16-entry `HashMap`: every slot, once. */
  predicate IsVisitOrder(order: seq<Slot>) {
    |order| == 16 && forall k: Slot :: k in order
  }

  /** `render_template`. The `HashMap` from slot names to values is the
      scheme's palette; its unspecified iteration order is `order`. */
  method RenderTemplate(templateContent: string, scheme: Scheme, order: seq<Slot>) returns (r: Option<string>)
    ensures r == RenderFrom(templateContent, scheme, order)
  {
    var content := templateContent;
    var i := 0;
    while i < |order|
      invariant 0 <= i <= |order|
      invariant RenderFrom(content, scheme, order[i..]) == RenderFrom(templateContent, scheme, order)
    {
      var key := order[i];
      var value := scheme.slots[key];
      assert order[i..][1..] == order[i + 1..];
      if |value| < 6 {
        return None;
      }
      var hexR, hexG, hexB := value[0..2], value[2..4], value[4..6];
      var rgbR, rgbG, rgbB := ParseChannel(hexR), ParseChannel(hexG), ParseChannel(hexB);
      if rgbR.None? || rgbG.None? || rgbB.None? {
        return None;
      }
      var decR, decG, decB := DecChannel(rgbR.value), DecChannel(rgbG.value), DecChannel(rgbB.value);
      ghost var ch := SplitChannels(value).value;
      ghost var before := content;
      var name := SlotName(key);
      content := ReplaceAll(content, "{{scheme-name}}", scheme.name);
      content := ReplaceAll(content, "{{scheme-author}}", scheme.author);
      content := ReplaceAll(content, "{{" + name + "-hex" + "}}", value);
      content := ReplaceAll(content, "{{" + name + "-hex-r" + "}}", hexR);
      content := ReplaceAll(content, "{{" + name + "-hex-g" + "}}", hexG);
      content := ReplaceAll(content, "{{" + name + "-hex-b" + "}}", hexB);
      content := ReplaceAll(content, "{{" + name + "-dec-r" + "}}", IntString(decR));
      content := ReplaceAll(content, "{{" + name + "-dec-g" + "}}", IntString(decG));
      content := ReplaceAll(content, "{{" + name + "-dec-b" + "}}", IntString(decB));
      content := ReplaceAll(content, "{{" + name + "-hex-bgr" + "}}", hexB + hexG + hexR);
      SlotStepUnfolds(before, scheme, key);
      i := i + 1;
    }
    assert order[i..] == [];
    return Some(content);
  }

  /** The ten replacements of one slot, written out in source order. */
  lemma SlotStepUnfolds(content: string, sc: Scheme, k: Slot)
    requires SplitChannels(sc.slots[k]).Some?
    ensures var v, ch, n := sc.slots[k], SplitChannels(sc.slots[k]).value, SlotName(k);
      RenderSlot(content, sc, k) == Some(
        ReplaceAll(ReplaceAll(ReplaceAll(ReplaceAll(ReplaceAll(ReplaceAll(ReplaceAll(ReplaceAll(ReplaceAll(ReplaceAll(
          content,
          "{{scheme-name}}", sc.name),
          "{{scheme-author}}", sc.author),
          "{{" + n + "-hex" + "}}", v),
          "{{" + n + "-hex-r" + "}}", ch.hexR),
          "{{" + n + "-hex-g" + "}}", ch.hexG),
          "{{" + n + "-hex-b" + "}}", ch.hexB),
          "{{" + n + "-dec-r" + "}}", IntString(ch.decR)),
          "{{" + n + "-dec-g" + "}}", IntString(ch.decG)),
          "{{" + n + "-dec-b" + "}}", IntString(ch.decB)),
          "{{" + n + "-hex-bgr" + "}}", ch.hexB + ch.hexG + ch.hexR))
  {
    var toks := StepTokens(k);
    var v, ch, n := sc.slots[k], SplitChannels(sc.slots[k]).value, SlotName(k);
    StepTexts(k);
    StepValues(sc, k);
    DropNothing(toks);
    var c := content;
    ReplaceTokensStep(c, sc, toks, 0);
    c := ReplaceAll(c, "{{scheme-name}}", sc.name);
    ReplaceTokensStep(c, sc, toks, 1);
    c := ReplaceAll(c, "{{scheme-author}}", sc.author);
    ReplaceTokensStep(c, sc, toks, 2);
    c := ReplaceAll(c, "{{" + n + "-hex" + "}}", v);
    ReplaceTokensStep(c, sc, toks, 3);
    c := ReplaceAll(c, "{{" + n + "-hex-r" + "}}", ch.hexR);
    ReplaceTokensStep(c, sc, toks, 4);
    c := ReplaceAll(c, "{{" + n + "-hex-g" + "}}", ch.hexG);
    ReplaceTokensStep(c, sc, toks, 5);
    c := ReplaceAll(c, "{{" + n + "-hex-b" + "}}", ch.hexB);
    ReplaceTokensStep(c, sc, toks, 6);
    c := ReplaceAll(c, "{{" + n + "-dec-r" + "}}", IntString(ch.decR));
    ReplaceTokensStep(c, sc, toks, 7);
    c := ReplaceAll(c, "{{" + n + "-dec-g" + "}}", IntString(ch.decG));
    ReplaceTokensStep(c, sc, toks, 8);
    c := ReplaceAll(c, "{{" + n + "-dec-b" + "}}", IntString(ch.decB));
    ReplaceTokensStep(c, sc, toks, 9);
    c := ReplaceAll(c, "{{" + n + "-hex-bgr" + "}}", ch.hexB + ch.hexG + ch.hexR);
    DropAll(toks);
  }

  lemma DropNothing(toks: seq<Token>)
    ensures toks[0..] == toks
  {
  }

  lemma DropAll(toks: seq<Token>)
    ensures toks[|toks|..] == []
  {
  }

  /** The placeholders of one slot step, spelled as the source formats them. */
  lemma StepTexts(k: Slot)
    ensures var toks, n := StepTokens(k), SlotName(k);
      && TokenText(toks[0]) == "{{scheme-name}}"
      && TokenText(toks[1]) == "{{scheme-author}}"
      && TokenText(toks[2]) == "{{" + n + "-hex" + "}}"
      && TokenText(toks[3]) == "{{" + n + "-hex-r" + "}}"
      && TokenText(toks[4]) == "{{" + n + "-hex-g" + "}}"
      && TokenText(toks[5]) == "{{" + n + "-hex-b" + "}}"
      && TokenText(toks[6]) == "{{" + n + "-dec-r" + "}}"
      && TokenText(toks[7]) == "{{" + n + "-dec-g" + "}}"
      && TokenText(toks[8]) == "{{" + n + "-dec-b" + "}}"
      && TokenText(toks[9]) == "{{" + n + "-hex-bgr" + "}}"
  {
    var n := SlotName(k);
    NameText();
    AuthorText();
    Assoc("{{", n, "-hex");
    Assoc("{{", n, "-hex-r");
    Assoc("{{", n, "-hex-g");
    Assoc("{{", n, "-hex-b");
    Assoc("{{", n, "-dec-r");
    Assoc("{{", n, "-dec-g");
    Assoc("{{", n, "-dec-b");
    Assoc("{{", n, "-hex-bgr");
  }

  lemma NameText()
    ensures TokenText(SchemeName) == "{{scheme-name}}"
  {
  }

  lemma AuthorText()
    ensures TokenText(SchemeAuthor) == "{{scheme-author}}"
  {
  }


  /** The replacements of one slot step, as the source computes them. */
  lemma StepValues(sc: Scheme, k: Slot)
    requires SplitChannels(sc.slots[k]).Some?
    ensures var toks, v, ch := StepTokens(k), sc.slots[k], SplitChannels(sc.slots[k]).value;
      && Replacement(sc, toks[0]) == Some(sc.name)
      && Replacement(sc, toks[1]) == Some(sc.author)
      && Replacement(sc, toks[2]) == Some(v)
      && Replacement(sc, toks[3]) == Some(ch.hexR)
      && Replacement(sc, toks[4]) == Some(ch.hexG)
      && Replacement(sc, toks[5]) == Some(ch.hexB)
      && Replacement(sc, toks[6]) == Some(IntString(ch.decR))
      && Replacement(sc, toks[7]) == Some(IntString(ch.decG))
      && Replacement(sc, toks[8]) == Some(IntString(ch.decB))
      && Replacement(sc, toks[9]) == Some(ch.hexB + ch.hexG + ch.hexR)
  {
    var toks := StepTokens(k);
    assert toks[2] == SlotToken(k, Hex) && toks[3] == SlotToken(k, HexR) && toks[4] == SlotToken(k, HexG);
    assert toks[5] == SlotToken(k, HexB) && toks[6] == SlotToken(k, DecR) && toks[7] == SlotToken(k, DecG);
    assert toks[8] == SlotToken(k, DecB) && toks[9] == SlotToken(k, HexBgr);
    SlotTokenValue(sc, k, Hex);
    SlotTokenValue(sc, k, HexR);
    SlotTokenValue(sc, k, HexG);
    SlotTokenValue(sc, k, HexB);
    SlotTokenValue(sc, k, DecR);
    SlotTokenValue(sc, k, DecG);
    SlotTokenValue(sc, k, DecB);
    SlotTokenValue(sc, k, HexBgr);
  }

  /** A per-slot token is replaced by its kind's value of the slot. */
  lemma SlotTokenValue(sc: Scheme, k: Slot, kind: Kind)
    requires SplitChannels(sc.slots[k]).Some?
    ensures Replacement(sc, SlotToken(k, kind)) == Some(KindValue(sc.slots[k], SplitChannels(sc.slots[k]).value, kind))
  {
  }

  /** Peeling the token at position `m` off a run of replacements. */
  lemma ReplaceTokensStep(c: string, sc: Scheme, toks: seq<Token>, m: nat)
    requires m < |toks| && forall i :: 0 <= i < |toks| ==> Replacement(sc, toks[i]).Some?
    ensures ReplaceTokens(c, sc, toks[m..])
      == ReplaceTokens(ReplaceAll(c, TokenText(toks[m]), Replacement(sc, toks[m]).value), sc, toks[m + 1..])
  {
    assert toks[m..][1..] == toks[m + 1..];
  }

  // ---------------------------------------------------------------------------
  // Properties of the rendering

  /** Every slot parses: no slot value makes the slot loop panic. */
  predicate AllSlotsParse(sc: Scheme) {
    forall k: Slot :: SplitChannels(sc.slots[k]).Some?
  }

  /** The loop fails exactly when it visits a slot whose value does not split. */
  lemma {:induction false} RenderFromFails(t: string, sc: Scheme, order: seq<Slot>)
    ensures RenderFrom(t, sc, order).None? <==>
      exists i :: 0 <= i < |order| && SplitChannels(sc.slots[order[i]]).None?
    decreases |order|
  {
    if |order| > 0 && SplitChannels(sc.slots[order[0]]).Some? {
      var c := RenderSlot(t, sc, order[0]).value;
      RenderFromFails(c, sc, order[1..]);
      if exists i :: 0 <= i < |order| && SplitChannels(sc.slots[order[i]]).None? {
        var i :| 0 <= i < |order| && SplitChannels(sc.slots[order[i]]).None?;
        assert order[1..][i - 1] == order[i];
      }
      if exists i :: 0 <= i < |order[1..]| && SplitChannels(sc.slots[order[1..][i]]).None? {
        var i :| 0 <= i < |order[1..]| && SplitChannels(sc.slots[order[1..][i]]).None?;
        assert order[i + 1] == order[1..][i];
      }
    }
  }

  /** Over a full visit order, rendering panics exactly when some slot value
      is shorter than six characters or has a channel that does not parse,
      whatever the template. */
  lemma RenderFailsIff(t: string, sc: Scheme, order: seq<Slot>)
    requires IsVisitOrder(order)
    ensures RenderFrom(t, sc, order).None? <==> !AllSlotsParse(sc)
  {
    RenderFromFails(t, sc, order);
    if !AllSlotsParse(sc) {
      var k: Slot :| SplitChannels(sc.slots[k]).None?;
      assert k in order;
      var i :| 0 <= i < |order| && order[i] == k;
    }
  }

  /** Every token is written with at least fourteen characters and opens with
      "{{". */
  lemma TokenTextShape(tok: Token)
    ensures |TokenText(tok)| >= 14 && StartsWith(TokenText(tok), "{{")
  {
  }

  /** Text in which no token occurs passes through the replacements of a slot
      unchanged. */
  lemma {:induction false} ReplaceTokensUntouched(t: string, sc: Scheme, toks: seq<Token>)
    requires forall i :: 0 <= i < |toks| ==> Replacement(sc, toks[i]).Some?
    ensures (forall tok: Token :: !Occurs(t, TokenText(tok))) ==> ReplaceTokens(t, sc, toks) == t
    decreases |toks|
  {
    if |toks| > 0 {
      ReplaceTokensUntouched(t, sc, toks[1..]);
    }
  }

  /** A template in which no token occurs is rendered unchanged (unless a
      slot panics). */
  lemma {:induction false} RenderUntouched(t: string, sc: Scheme, order: seq<Slot>)
    requires forall tok: Token :: !Occurs(t, TokenText(tok))
    ensures RenderFrom(t, sc, order) == None || RenderFrom(t, sc, order) == Some(t)
    decreases |order|
  {
    if |order| > 0 && SplitChannels(sc.slots[order[0]]).Some? {
      ReplaceTokensUntouched(t, sc, StepTokens(order[0]));
      RenderUntouched(t, sc, order[1..]);
    }
  }

  /** A template without "{{" comes back unchanged. */
  lemma RenderWithoutBraces(t: string, sc: Scheme, order: seq<Slot>)
    requires !Occurs(t, "{{") && IsVisitOrder(order) && AllSlotsParse(sc)
    ensures RenderFrom(t, sc, order) == Some(t)
  {
    forall tok: Token
      ensures !Occurs(t, TokenText(tok))
    {
      TokenTextShape(tok);
      if Occurs(t, TokenText(tok)) {
        OccursPrefix(t, TokenText(tok), "{{");
      }
    }
    RenderUntouched(t, sc, order);
    RenderFailsIff(t, sc, order);
  }

  /** A template shorter than the shortest token, such as "{{foo}}", comes
      back unchanged. */
  lemma RenderShortTemplate(t: string, sc: Scheme, order: seq<Slot>)
    requires |t| < 14 && IsVisitOrder(order) && AllSlotsParse(sc)
    ensures RenderFrom(t, sc, order) == Some(t)
  {
    forall tok: Token
      ensures !Occurs(t, TokenText(tok))
    {
      TokenTextShape(tok);
      OccursLength(t, TokenText(tok));
    }
    RenderUntouched(t, sc, order);
    RenderFailsIff(t, sc, order);
  }

  /** What the per-slot tokens of a slot that parses are replaced by: the
      value itself, its three two-character channels (which make up its first
      six characters), the channels in blue-green-red order, and decimal
      flags that read "1" exactly for an "ff" channel. */
  lemma SlotReplacements(sc: Scheme, k: Slot)
    requires SplitChannels(sc.slots[k]).Some?
    ensures var v := sc.slots[k];
      var r, g, b := Replacement(sc, SlotToken(k, HexR)).value, Replacement(sc, SlotToken(k, HexG)).value,
                     Replacement(sc, SlotToken(k, HexB)).value;
      && Replacement(sc, SlotToken(k, Hex)) == Some(v)
      && r + g + b == v[..6]
      && Replacement(sc, SlotToken(k, HexBgr)) == Some(b + g + r)
      && Replacement(sc, SlotToken(k, DecR)) == Some(if Lower(r) == "ff" then "1" else "0")
      && Replacement(sc, SlotToken(k, DecG)) == Some(if Lower(g) == "ff" then "1" else "0")
      && Replacement(sc, SlotToken(k, DecB)) == Some(if Lower(b) == "ff" then "1" else "0")
  {
    DecOneIffFF(sc.slots[k]);
  }

  /** Example: base0D = "1234AB" renders `{{base0D-hex-bgr}}` as "AB3412". */
  lemma BgrExample(sc: Scheme)
    requires sc.slots[13] == "1234AB"
    ensures Replacement(sc, SlotToken(13, HexBgr)) == Some("AB3412")
  {
    SixHexDigitsAccepted("1234AB");
    assert "1234AB"[0..2] == "12" && "1234AB"[2..4] == "34" && "1234AB"[4..6] == "AB";
    assert "AB" + "34" + "12" == "AB3412";
  }
}
