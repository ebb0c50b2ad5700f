/**
 * useKeyboardShortcut: a shortcut string such as "Ctrl + Shift + K" is read
 * as three modifier requirements and a target key, and every keydown is
 * checked against the hook's shortcuts in order; the first one that matches
 * calls the current callback and stops the scan.
 */
module KeyboardShortcut {
  import opened Wrappers
  import Text

  /** What a shortcut string asks for. */
  datatype Shortcut = Shortcut(ctrl: bool, shift: bool, alt: bool, key: string)

  /** The fields of a browser `KeyboardEvent` the handler reads. */
  datatype KeyEvent = KeyEvent(key: string, ctrlKey: bool, metaKey: bool, shiftKey: bool, altKey: bool)

  /** The hook accepts one shortcut or a list of them. */
  datatype Keys = One(shortcut: string) | Many(shortcuts: seq<string>)

  function KeyArray(keys: Keys): seq<string> {
    match keys
    case One(s) => [s]
    case Many(ss) => ss
  }

  /** How the handler reads one trimmed, lower-cased part. */
  datatype PartKind = CtrlPart | ShiftPart | AltPart | KeyPart

  function Classify(part: string): PartKind {
    if part == "ctrl" || part == "control" || part == "cmd" || part == "meta" then CtrlPart
    else if part == "shift" then ShiftPart
    else if part == "alt" || part == "option" then AltPart
    else KeyPart
  }

  predicate IsModifier(part: string) {
    Classify(part) != KeyPart
  }

  /** `raw.map(p => p.trim())`. */
  function TrimAll(raw: seq<string>): (parts: seq<string>)
    ensures |parts| == |raw|
    decreases |raw|
  {
    if |raw| == 0 then [] else [Text.Trim(raw[0])] + TrimAll(raw[1..])
  }

  lemma {:induction false} TrimAllAt(raw: seq<string>, i: nat)
    requires i < |raw|
    ensures TrimAll(raw)[i] == Text.Trim(raw[i])
    decreases |raw|
  {
    if i > 0 {
      TrimAllAt(raw[1..], i - 1);
    }
  }

  lemma {:induction false} TrimAllAppend(a: seq<string>, b: seq<string>)
    ensures TrimAll(a + b) == TrimAll(a) + TrimAll(b)
    decreases |a|
  {
    if |a| > 0 {
      assert (a + b)[1..] == a[1..] + b;
      TrimAllAppend(a[1..], b);
    } else {
      assert a + b == b;
    }
  }

  /** `shortcut.toLowerCase().split('+').map(p => p.trim())`. */
  function Parts(shortcut: string): seq<string> {
    TrimAll(Text.Split(Text.Lower(shortcut), '+'))
  }

  /** Some part is a modifier of kind `m`. */
  function Has(parts: seq<string>, m: PartKind): bool
    decreases |parts|
  {
    if |parts| == 0 then false
    else Classify(parts[|parts| - 1]) == m || Has(parts[..|parts| - 1], m)
  }

  /** `Has` holds exactly when some part is of kind `m`, wherever it stands. */
  lemma {:induction false} HasIff(parts: seq<string>, m: PartKind)
    ensures Has(parts, m) <==> exists i :: 0 <= i < |parts| && Classify(parts[i]) == m
    decreases |parts|
  {
    if |parts| > 0 {
      var init := parts[..|parts| - 1];
      HasIff(init, m);
      assert forall i :: 0 <= i < |init| ==> init[i] == parts[i];
    }
  }

  /**
   * The target key: the last part that is not a modifier, or "" when every
   * part is one.
   */
  function LastTarget(parts: seq<string>): (t: string)
    ensures !IsModifier(t)
    ensures t == "" || t in parts
    decreases |parts|
  {
    if |parts| == 0 then ""
    else if !IsModifier(parts[|parts| - 1]) then parts[|parts| - 1]
    else LastTarget(parts[..|parts| - 1])
  }

  /** Later parts overwrite earlier ones: the last non-modifier part wins. */
  lemma {:induction false} LastTargetIsLast(parts: seq<string>, j: nat)
    requires j < |parts| && !IsModifier(parts[j])
    requires forall i :: j < i < |parts| ==> IsModifier(parts[i])
    ensures LastTarget(parts) == parts[j]
    decreases |parts|
  {
    if j < |parts| - 1 {
      var init := parts[..|parts| - 1];
      assert forall i :: j < i < |init| ==> init[i] == parts[i];
      LastTargetIsLast(init, j);
    }
  }

  /** A shortcut made only of modifiers has the empty target. */
  lemma {:induction false} LastTargetAllModifiers(parts: seq<string>)
    requires forall i :: 0 <= i < |parts| ==> IsModifier(parts[i])
    ensures LastTarget(parts) == ""
    decreases |parts|
  {
    if |parts| > 0 {
      var init := parts[..|parts| - 1];
      assert forall i :: 0 <= i < |init| ==> init[i] == parts[i];
      LastTargetAllModifiers(init);
    }
  }

  /** The requirements a list of parts states. */
  function FromParts(parts: seq<string>): Shortcut {
    Shortcut(Has(parts, CtrlPart), Has(parts, ShiftPart), Has(parts, AltPart), LastTarget(parts))
  }

  /**
   * The meaning of a shortcut string: each modifier is required exactly when
   * some part names it, and the target is one of the parts that is not a
   * modifier, or "" when there is none.
   */
  function Parse(shortcut: string): (r: Shortcut)
    ensures var parts := Parts(shortcut);
      && (r.ctrl <==> exists i :: 0 <= i < |parts| && Classify(parts[i]) == CtrlPart)
      && (r.shift <==> exists i :: 0 <= i < |parts| && Classify(parts[i]) == ShiftPart)
      && (r.alt <==> exists i :: 0 <= i < |parts| && Classify(parts[i]) == AltPart)
      && !IsModifier(r.key) && (r.key == "" || r.key in parts)
  {
    var parts := Parts(shortcut);
    HasIff(parts, CtrlPart);
    HasIff(parts, ShiftPart);
    HasIff(parts, AltPart);
    FromParts(parts)
  }

  /**
   * Parts that agree on which are modifiers, and agree where they are not,
   * give the same target key.
   */
  lemma {:induction false} LastTargetAlike(p1: seq<string>, p2: seq<string>)
    requires |p1| == |p2|
    requires forall j :: 0 <= j < |p1| ==> IsModifier(p1[j]) == IsModifier(p2[j])
    requires forall j :: 0 <= j < |p1| && !IsModifier(p1[j]) ==> p1[j] == p2[j]
    ensures LastTarget(p1) == LastTarget(p2)
    decreases |p1|
  {
    if |p1| > 0 {
      var n := |p1| - 1;
      LastTargetAlike(p1[..n], p2[..n]);
    }
  }

  /**
   * Aliases are interchangeable: "ctrl", "control", "cmd" and "meta" all ask
   * for Ctrl (with Meta), "alt" and "option" both ask for Alt, so putting one
   * modifier name in place of another of its kind changes nothing.
   */
  lemma ModifierAliases(parts: seq<string>, i: nat, alias: string)
    requires i < |parts| && IsModifier(parts[i])
    requires Classify(alias) == Classify(parts[i])
    ensures FromParts(parts[i := alias]) == FromParts(parts)
  {
    var p2 := parts[i := alias];
    forall m: PartKind ensures Has(p2, m) == Has(parts, m) {
      HasIff(p2, m);
      HasIff(parts, m);
      assert forall j :: 0 <= j < |parts| ==> Classify(p2[j]) == Classify(parts[j]);
    }
    LastTargetAlike(parts, p2);
  }

  /** "Ctrl + Shift + K" asks for Ctrl and Shift, not Alt, and the key "k". */
  lemma ParseExample()
    ensures Parse("Ctrl + Shift + K") == Shortcut(true, true, false, "k")
  {
    ExampleSpacing();
    ExampleTightParts();
    ExamplePartsMeaning();
  }

  lemma ExampleSpacing()
    ensures Parts("Ctrl + Shift + K") == Parts("Ctrl+Shift+K")
  {
    assert "Ctrl + Shift + K" == "Ctrl" + " " + "+" + " " + "Shift + K";
    SpacesAroundPlusIgnored("Ctrl", " ", " ", "Shift + K");
    assert "Ctrl" + "+" + "Shift + K" == "Ctrl+Shift" + " " + "+" + " " + "K";
    SpacesAroundPlusIgnored("Ctrl+Shift", " ", " ", "K");
    assert "Ctrl+Shift" + "+" + "K" == "Ctrl+Shift+K";
  }

  lemma ExampleTightParts()
    ensures Parts("Ctrl+Shift+K") == ["ctrl", "shift", "k"]
  {
    ExampleLower();
    ExampleSplit();
    ExampleTrim();
  }

  lemma ExampleLower()
    ensures Text.Lower("Ctrl+Shift+K") == "ctrl+shift+k"
  {
    var s := "Ctrl+Shift+K";
    assert Text.Lower(s)[0] == 'c' && Text.Lower(s)[5] == 's' && Text.Lower(s)[11] == 'k';
  }

  lemma ExampleSplit()
    ensures Text.Split("ctrl+shift+k", '+') == ["ctrl", "shift", "k"]
  {
    var pieces := ["ctrl", "shift", "k"];
    assert Text.Join(pieces, '+') == "ctrl+shift+k";
    Text.SplitJoin(pieces, '+');
  }

  lemma ExampleTrim()
    ensures TrimAll(["ctrl", "shift", "k"]) == ["ctrl", "shift", "k"]
  {
  }

  lemma ExamplePartsMeaning()
    ensures FromParts(["ctrl", "shift", "k"]) == Shortcut(true, true, false, "k")
  {
    var parts := ["ctrl", "shift", "k"];
    assert Classify(parts[0]) == CtrlPart && Classify(parts[1]) == ShiftPart && Classify(parts[2]) == KeyPart;
    HasIff(parts, CtrlPart);
    HasIff(parts, ShiftPart);
    HasIff(parts, AltPart);
    LastTargetIsLast(parts, 2);
  }

  /** Parsing ignores case: a shortcut parses like its lower-cased form. */
  lemma ParseIgnoresCase(shortcut: string)
    ensures Parse(Text.Lower(shortcut)) == Parse(shortcut)
  {
    Text.LowerIdempotent(shortcut);
  }

  /**
   * White space around a '+' is dropped: "Ctrl + K" has the same parts as
   * "Ctrl+K", whatever comes before and after.
   */
  lemma SpacesAroundPlusIgnored(a: string, w1: string, w2: string, b: string)
    requires Text.AllSpace(w1) && Text.AllSpace(w2)
    ensures Parts(a + w1 + "+" + w2 + b) == Parts(a + "+" + b)
  {
    var la, lb := Text.Lower(a), Text.Lower(b);
    Text.LowerSpacedPlus(a, w1, w2, b);
    Text.LowerSpacedPlus(a, "", "", b);
    assert a + "" + "+" + "" + b == a + "+" + b;
    assert la + "" + "+" + "" + lb == la + "+" + lb;
    SpacedPiecesTrimAlike(la, w1, w2, lb);
  }

  lemma SpacedPiecesTrimAlike(la: string, w1: string, w2: string, lb: string)
    requires Text.AllSpace(w1) && Text.AllSpace(w2)
    ensures TrimAll(Text.Split(la + w1 + "+" + w2 + lb, '+')) == TrimAll(Text.Split(la + "+" + lb, '+'))
  {
    assert '+' !in w1 by {
      forall i | 0 <= i < |w1| ensures w1[i] != '+' {
        assert Text.IsSpace(w1[i]);
      }
    }
    assert '+' !in w2 by {
      forall i | 0 <= i < |w2| ensures w2[i] != '+' {
        assert Text.IsSpace(w2[i]);
      }
    }
    assert la + w1 + "+" + w2 + lb == (la + w1) + ['+'] + (w2 + lb);
    assert la + "+" + lb == la + ['+'] + lb;
    Text.SplitAppendSep(la + w1, w2 + lb, '+');
    Text.SplitAppendSep(la, lb, '+');
    Text.SplitAppendFree(la, w1, '+');
    Text.SplitPrependFree(w2, lb, '+');
    var p, q := Text.Split(la, '+'), Text.Split(lb, '+');
    Text.SplitShape(la, '+');
    Text.SplitShape(lb, '+');
    var front, last, first, back := p[..|p| - 1], p[|p| - 1], q[0], q[1..];
    assert p[..|p| - 1] + [p[|p| - 1] + w1] + ([w2 + q[0]] + q[1..]) == front + [last + w1] + [w2 + first] + back;
    SplitAround(p, q);
    PiecesTrimAlike(front, last, first, back, w1, w2);
  }

  /** Trimming the two pieces that meet at a '+' removes the white space added around it. */
  lemma PiecesTrimAlike(front: seq<string>, last: string, first: string, back: seq<string>, w1: string, w2: string)
    requires Text.AllSpace(w1) && Text.AllSpace(w2)
    ensures TrimAll(front + [last + w1] + [w2 + first] + back) == TrimAll(front + [last] + [first] + back)
  {
    Text.TrimAppendSpace(last, w1);
    Text.TrimPrependSpace(w2, first);
    TrimAllAround(front, last + w1, w2 + first, back);
    TrimAllAround(front, last, first, back);
  }

  lemma SplitAround(p: seq<string>, q: seq<string>)
    requires |p| >= 1 && |q| >= 1
    ensures p + q == p[..|p| - 1] + [p[|p| - 1]] + [q[0]] + q[1..]
  {
    assert p == p[..|p| - 1] + [p[|p| - 1]];
    assert q == [q[0]] + q[1..];
  }

  lemma TrimAllAround(front: seq<string>, u: string, v: string, back: seq<string>)
    ensures TrimAll(front + [u] + [v] + back) == TrimAll(front) + [Text.Trim(u)] + [Text.Trim(v)] + TrimAll(back)
  {
    TrimAllAppend(front + [u] + [v], back);
    TrimAllAppend(front + [u], [v]);
    TrimAllAppend(front, [u]);
  }

  /**
   * The inner loop of the keydown handler: every modifier part sets its flag
   * and every other part overwrites the target key.
   */
  method ParseParts(parts: seq<string>) returns (s: Shortcut)
    ensures s == FromParts(parts)
  {
    var requiresCtrl, requiresShift, requiresAlt := false, false, false;
    var targetKey := "";
    for k := 0 to |parts|
      invariant requiresCtrl == Has(parts[..k], CtrlPart)
      invariant requiresShift == Has(parts[..k], ShiftPart)
      invariant requiresAlt == Has(parts[..k], AltPart)
      invariant targetKey == LastTarget(parts[..k])
    {
      var part := parts[k];
      assert parts[..k + 1][..k] == parts[..k];
      if part == "ctrl" || part == "control" || part == "cmd" || part == "meta" {
        requiresCtrl := true;
      } else if part == "shift" {
        requiresShift := true;
      } else if part == "alt" || part == "option" {
        requiresAlt := true;
      } else {
        targetKey := part;
      }
    }
    assert parts[..|parts|] == parts;
    s := Shortcut(requiresCtrl, requiresShift, requiresAlt, targetKey);
  }

  /**
   * Every requirement must equal the pressed state exactly (Ctrl counts as
   * pressed when either Ctrl or Meta is), and the lower-cased key must be
   * the target.
   */
  predicate Matches(s: Shortcut, ev: KeyEvent): (b: bool)
    ensures b ==> Text.Lower(s.key) == s.key
    ensures b && !s.ctrl ==> !ev.ctrlKey && !ev.metaKey
  {
    Text.LowerIdempotent(ev.key);
    && s.ctrl == (ev.ctrlKey || ev.metaKey)
    && s.shift == ev.shiftKey
    && s.alt == ev.altKey
    && Text.Lower(ev.key) == s.key
  }

  /**
   * Matching is exact on every modifier: a pressed modifier the shortcut
   * does not ask for blocks the match, and Meta stands in for Ctrl.
   */
  lemma ModifiersMatchExactly(s: Shortcut, ev: KeyEvent)
    ensures !s.shift && ev.shiftKey ==> !Matches(s, ev)
    ensures !s.alt && ev.altKey ==> !Matches(s, ev)
    ensures !s.ctrl && (ev.ctrlKey || ev.metaKey) ==> !Matches(s, ev)
    ensures Matches(s, ev) ==> Matches(s, ev.(ctrlKey := ev.metaKey, metaKey := ev.ctrlKey))
  {
  }

  /** Every shortcut of the list, parsed. */
  function ParseAll(shortcuts: seq<string>): (specs: seq<Shortcut>)
    ensures |specs| == |shortcuts|
    decreases |shortcuts|
  {
    if |shortcuts| == 0 then []
    else ParseAll(shortcuts[..|shortcuts| - 1]) + [Parse(shortcuts[|shortcuts| - 1])]
  }

  lemma {:induction false} ParseAllAt(shortcuts: seq<string>, k: nat)
    requires k < |shortcuts|
    ensures ParseAll(shortcuts)[k] == Parse(shortcuts[k])
    decreases |shortcuts|
  {
    if k < |shortcuts| - 1 {
      ParseAllAt(shortcuts[..|shortcuts| - 1], k);
    }
  }

  /** Parsing the `k`-th shortcut of the list as the handler does, part by part. */
  method ParseShortcutAt(shortcuts: seq<string>, k: nat) returns (s: Shortcut)
    requires k < |shortcuts|
    ensures s == ParseAll(shortcuts)[k]
  {
    s := ParseParts(Parts(shortcuts[k]));
    ParseAllAt(shortcuts, k);
  }

  /** `hit` is the first shortcut in list order that matches, or none matches. */
  predicate IsFirstMatch(specs: seq<Shortcut>, ev: KeyEvent, hit: Option<nat>) {
    match hit
    case Some(k) =>
      k < |specs| && Matches(specs[k], ev)
      && forall j :: 0 <= j < k ==> !Matches(specs[j], ev)
    case None =>
      forall j :: 0 <= j < |specs| ==> !Matches(specs[j], ev)
  }

  /**
   * The outer loop of the keydown handler: each shortcut is parsed in turn
   * and the scan stops at the first match.
   */
  method FirstMatch(shortcuts: seq<string>, ev: KeyEvent) returns (hit: Option<nat>)
    ensures IsFirstMatch(ParseAll(shortcuts), ev, hit)
  {
    ghost var specs := ParseAll(shortcuts);
    hit := None;
    var k := 0;
    while k < |shortcuts|
      invariant 0 <= k <= |shortcuts|
      invariant forall j :: 0 <= j < k ==> !Matches(specs[j], ev)
    {
      var s := ParseShortcutAt(shortcuts, k);
      if Matches(s, ev) {
        hit := Some(k);
        break;
      }
      k := k + 1;
    }
  }

  /**
   * The mounted hook. `callback` stands for `callbackRef.current`, whose
   * code is not part of this model: a callback is known by a number, and
   * `delivered` records which callback received which event.
   */
  class ShortcutListener {
    const keys: Keys
    const preventDefault: bool
    const enabled: bool
    var callback: nat
    var delivered: seq<(nat, KeyEvent)>
    var prevented: seq<KeyEvent>

    constructor (keys: Keys, callback: nat, preventDefault: bool := false, enabled: bool := true)
      ensures this.keys == keys && this.callback == callback
      ensures this.preventDefault == preventDefault && this.enabled == enabled
      ensures delivered == [] && prevented == []
    {
      this.keys := keys;
      this.callback := callback;
      this.preventDefault := preventDefault;
      this.enabled := enabled;
      delivered := [];
      prevented := [];
    }

    /** A re-render with a new callback updates the ref; the listener stays. */
    method SetCallback(cb: nat)
      modifies this`callback
      ensures callback == cb
    {
      callback := cb;
    }

    /**
     * One keydown. A disabled hook installs no listener, so nothing
     * happens; otherwise at most one delivery, and `preventDefault` is
     * called only on a match and only when the option is set.
     */
    method HandleKeyDown(ev: KeyEvent) returns (hit: Option<nat>)
      modifies this`delivered, this`prevented
      ensures !enabled ==> hit == None
      ensures enabled ==> IsFirstMatch(ParseAll(KeyArray(keys)), ev, hit)
      ensures delivered == old(delivered) + (if hit.Some? then [(callback, ev)] else [])
      ensures prevented == old(prevented) + (if hit.Some? && preventDefault then [ev] else [])
    {
      hit := None;
      if !enabled {
        return;
      }
      hit := FirstMatch(KeyArray(keys), ev);
      if hit.Some? {
        if preventDefault {
          prevented := prevented + [ev];
        }
        delivered := delivered + [(callback, ev)];
      }
    }
  }
}
