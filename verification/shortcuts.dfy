/** Keyboard shortcuts: a key press is rendered as a string such as "Cmd+Shift+A" and
    compared, without case, with the registered shortcuts; the first that matches runs.
    Presses inside text fields and presses while the shortcuts are disabled are ignored. */
module Shortcuts {
  import opened Wrappers
  import opened Text
  import opened Collections

  /** The parts of a `KeyboardEvent` the hook reads. */
  datatype KeyEvent = KeyEvent(
    key: String,
    ctrlKey: bool,
    metaKey: bool,
    altKey: bool,
    shiftKey: bool,
    tagName: String,
    contentEditable: String)

  /** A registered shortcut; its action is identified by its position in the list. */
  datatype Shortcut = Shortcut(key: String, description: String, category: Option<String>)

  /** The names of the special keys. */
  function SpecialName(key: String): Option<String> {
    if key == " " then Some("Space")
    else if key == "Enter" then Some("Enter")
    else if key == "Escape" then Some("Esc")
    else if key == "Backspace" then Some("Backspace")
    else if key == "Delete" then Some("Delete")
    else if key == "Tab" then Some("Tab")
    else if key == "ArrowUp" then Some("Up")
    else if key == "ArrowDown" then Some("Down")
    else if key == "ArrowLeft" then Some("Left")
    else if key == "ArrowRight" then Some("Right")
    else None
  }

  /** A special key's name, or the key in capitals. */
  function KeyName(key: String): String {
    match SpecialName(key)
    case Some(name) => name
    case None => Upper(key)
  }

  /** The modifier names, in the order they are written. */
  function Modifiers(e: KeyEvent): seq<String> {
    (if e.ctrlKey || e.metaKey then ["Cmd"] else [])
    + (if e.altKey then ["Alt"] else [])
    + (if e.shiftKey then ["Shift"] else [])
  }

  /** The string a key press is written as. */
  function KeyString(e: KeyEvent): String {
    Join(Modifiers(e) + [KeyName(e.key)], "+")
  }

  /** getKeyString: the parts are collected one by one and joined with '+'. */
  method GetKeyString(e: KeyEvent) returns (s: String)
    ensures s == KeyString(e)
  {
    var parts: seq<String> := [];
    if e.ctrlKey || e.metaKey {
      parts := parts + ["Cmd"];
    }
    if e.altKey {
      parts := parts + ["Alt"];
    }
    if e.shiftKey {
      parts := parts + ["Shift"];
    }
    var key := match SpecialName(e.key) case Some(name) => name case None => Upper(e.key);
    assert parts == Modifiers(e);
    parts := parts + [key];
    s := Join(parts, "+");
  }

  predicate IsPlus(c: char) { c == '+' }

  /** Capitalising keeps every character that is not an ASCII letter. */
  lemma UpperKeeps(s: String, c: char)
    requires !IsAsciiLetter(c)
    ensures c in Upper(s) <==> c in s
  {
    if c in Upper(s) {
      var i :| 0 <= i < |s| && Upper(s)[i] == c;
      assert s[i] == c;
    }
    if c in s {
      var i :| 0 <= i < |s| && s[i] == c;
      assert Upper(s)[i] == c;
    }
  }

  /** A key name holds a '+' exactly when the key does. */
  lemma KeyNamePlus(key: String)
    ensures '+' in KeyName(key) <==> '+' in key
  {
    if SpecialName(key).None? {
      UpperKeeps(key, '+');
    }
  }

  /** Splitting a key string at '+' gives back the modifiers and the key name, as long as
      the key itself is not '+' or a key containing it. */
  lemma KeyStringParts(e: KeyEvent)
    requires '+' !in e.key
    ensures SplitWhere(KeyString(e), IsPlus) == Modifiers(e) + [KeyName(e.key)]
  {
    KeyNamePlus(e.key);
    var ps := Modifiers(e) + [KeyName(e.key)];
    forall k, i | 0 <= k < |ps| && 0 <= i < |ps[k]| ensures !IsPlus(ps[k][i]) {
      if k == |ps| - 1 {
        assert ps[k][i] in KeyName(e.key);
      }
    }
    JoinSplitWhere(ps, '+', IsPlus);
  }

  /** Two presses of keys without '+' are written alike exactly when they hold the same
      modifiers (Ctrl and Meta both count as Cmd) and the same key name. */
  lemma KeyStringInjective(e1: KeyEvent, e2: KeyEvent)
    requires '+' !in e1.key && '+' !in e2.key
    ensures KeyString(e1) == KeyString(e2)
            <==> Modifiers(e1) == Modifiers(e2) && KeyName(e1.key) == KeyName(e2.key)
  {
    KeyStringParts(e1);
    KeyStringParts(e2);
    if KeyString(e1) == KeyString(e2) {
      var p1 := Modifiers(e1) + [KeyName(e1.key)];
      var p2 := Modifiers(e2) + [KeyName(e2.key)];
      assert p1 == p2;
      assert KeyName(e1.key) == p1[|p1| - 1];
      assert Modifiers(e1) == p1[..|p1| - 1];
      assert Modifiers(e2) == p2[..|p2| - 1];
    }
  }

  /** Splitting drops a leading character that is no separator into the first piece, so
      it leaves the number of pieces alone. */
  lemma SplitWherePlainHead(s: String, sep: char -> bool)
    requires s != [] && !sep(s[0])
    ensures |SplitWhere(s, sep)| == |SplitWhere(s[1..], sep)|
  {
  }

  /** Shift with the '+' key is written "Shift++". */
  lemma PlusKeyString()
    ensures KeyString(KeyEvent("+", false, false, false, true, "BODY", "inherit")) == "Shift++"
  {
    var e := KeyEvent("+", false, false, false, true, "BODY", "inherit");
    assert Modifiers(e) == ["Shift"];
    assert Upper("+") == "+";
    assert Join(["Shift", "+"], "+") == "Shift" + "+" + Join(["+"], "+");
  }

  /** "Shift++" splits into three parts. */
  lemma PlusSplitsThree()
    ensures |SplitWhere("Shift++", IsPlus)| == 3
  {
    var s: String := "Shift++";
    assert SplitWhere("+", IsPlus) == [[], []];
    assert |SplitWhere(s[5..], IsPlus)| == 3;
    assert s[4..][1..] == s[5..] && s[3..][1..] == s[4..] && s[2..][1..] == s[3..] && s[1..][1..] == s[2..];
    SplitWherePlainHead(s[4..], IsPlus);
    SplitWherePlainHead(s[3..], IsPlus);
    SplitWherePlainHead(s[2..], IsPlus);
    SplitWherePlainHead(s[1..], IsPlus);
    SplitWherePlainHead(s, IsPlus);
  }

  /** The '+' key itself makes the string ambiguous: Shift and '+' are written "Shift++",
      which splits into three parts. */
  lemma PlusKeyAmbiguous()
    ensures KeyString(KeyEvent("+", false, false, false, true, "BODY", "inherit")) == "Shift++"
    ensures |SplitWhere("Shift++", IsPlus)| == 3
  {
    PlusKeyString();
    PlusSplitsThree();
  }

  /** Case-insensitive comparison of a shortcut with a pressed key string. */
  predicate Matches(shortcut: Shortcut, pressed: String) {
    Lower(shortcut.key) == Lower(pressed)
  }

  /** What a key press leads to: nothing, no matching shortcut, or the action of the
      shortcut at `index` after preventDefault and stopPropagation. */
  datatype Handling = Ignored | Unmatched | Triggered(index: nat)

  /** The target is a text field, where shortcuts do not apply. */
  predicate IsEditable(e: KeyEvent) {
    e.tagName == "INPUT" || e.tagName == "TEXTAREA" || e.contentEditable == "true"
  }

  function Handle(shortcuts: seq<Shortcut>, enabled: bool, e: KeyEvent): Handling {
    if !enabled || IsEditable(e) then Ignored
    else match FirstIndex(shortcuts, s => Matches(s, KeyString(e)))
      case None => Unmatched
      case Some(i) => Triggered(i)
  }

  /** handleKeyDown. */
  method HandleKeyDown(shortcuts: seq<Shortcut>, enabled: bool, e: KeyEvent) returns (h: Handling)
    ensures h == Handle(shortcuts, enabled, e)
    ensures h.Triggered? ==> h.index < |shortcuts| && Matches(shortcuts[h.index], KeyString(e))
  {
    if !enabled {
      return Ignored;
    }
    if e.tagName == "INPUT" || e.tagName == "TEXTAREA" || e.contentEditable == "true" {
      return Ignored;
    }
    var pressed := GetKeyString(e);
    var found := FirstIndex(shortcuts, s => Matches(s, pressed));
    h := if found.Some? then Triggered(found.value) else Unmatched;
  }

  /** A press is ignored exactly when the shortcuts are disabled or it lands in a text
      field; otherwise the first matching shortcut runs, and only when none matches does
      nothing run. */
  lemma HandleFacts(shortcuts: seq<Shortcut>, enabled: bool, e: KeyEvent)
    ensures Handle(shortcuts, enabled, e) == Ignored <==> !enabled || IsEditable(e)
    ensures Handle(shortcuts, enabled, e).Triggered? ==>
              var i := Handle(shortcuts, enabled, e).index;
              i < |shortcuts| && Matches(shortcuts[i], KeyString(e))
              && forall j :: 0 <= j < i ==> !Matches(shortcuts[j], KeyString(e))
    ensures Handle(shortcuts, enabled, e) == Unmatched <==>
              enabled && !IsEditable(e) && forall j :: 0 <= j < |shortcuts| ==> !Matches(shortcuts[j], KeyString(e))
  {
    if enabled && !IsEditable(e) && forall j :: 0 <= j < |shortcuts| ==> !Matches(shortcuts[j], KeyString(e)) {
      assert FirstIndex(shortcuts, s => Matches(s, KeyString(e))).None?;
    }
  }

  /** Ctrl and Meta are the same modifier. */
  lemma CtrlIsMeta(key: String, alt: bool, shift: bool, tag: String, editable: String)
    ensures KeyString(KeyEvent(key, true, false, alt, shift, tag, editable))
            == KeyString(KeyEvent(key, false, true, alt, shift, tag, editable))
  {
  }

  /** Lower-casing ignores capitals: a shortcut written in any case matches the same
      presses. */
  lemma {:induction false} LowerUpper(s: String)
    ensures Lower(Upper(s)) == Lower(s)
  {
    assert forall i :: 0 <= i < |s| ==> LowerChar(UpperChar(s[i])) == LowerChar(s[i]);
  }

  /** The application's default shortcuts, by action. */
  const DefaultShortcuts: seq<(String, String)> := [
    ("save", "Cmd+S"), ("analyze", "Cmd+Shift+A"), ("find", "Cmd+F"), ("replace", "Cmd+R"),
    ("newDocument", "Cmd+N"), ("openDocument", "Cmd+O"), ("toggleSidebar", "Cmd+B"),
    ("toggleTheme", "Cmd+Shift+T"), ("focusEditor", "Cmd+E"), ("showShortcuts", "Cmd+/")
  ]

  /** A Ctrl press (with Shift or not) of a one-character key that is not a special key. */
  function CtrlPress(c: char, shift: bool): KeyEvent {
    KeyEvent([c], true, false, false, shift, "DIV", "inherit")
  }

  lemma CtrlPressString(c: char, shift: bool)
    requires c != ' '
    ensures KeyString(CtrlPress(c, shift)) == (if shift then "Cmd+Shift+" else "Cmd+") + [UpperChar(c)]
  {
    var e := CtrlPress(c, shift);
    assert KeyName([c]) == [UpperChar(c)];
    if shift {
      assert Modifiers(e) + [KeyName(e.key)] == ["Cmd", "Shift", [UpperChar(c)]];
      assert Join(["Cmd", "Shift", [UpperChar(c)]], "+") == "Cmd" + "+" + Join(["Shift", [UpperChar(c)]], "+");
      var rest: seq<String> := ["Shift", [UpperChar(c)]];
      assert ["Cmd", "Shift", [UpperChar(c)]][1..] == rest;
      assert rest[1..] == [[UpperChar(c)]];
      assert Join(rest, "+") == "Shift" + "+" + [UpperChar(c)];
      assert "Cmd" + "+" + ("Shift" + "+" + [UpperChar(c)]) == "Cmd+Shift+" + [UpperChar(c)];
    } else {
      assert Modifiers(e) == ["Cmd"];
      assert Join(["Cmd", [UpperChar(c)]], "+") == "Cmd" + "+" + Join([[UpperChar(c)]], "+");
    }
  }

  /** The presses that produce the default shortcuts, in the same order. */
  const DefaultPresses: seq<KeyEvent> := [
    CtrlPress('s', false), CtrlPress('A', true), CtrlPress('f', false), CtrlPress('r', false),
    CtrlPress('n', false), CtrlPress('o', false), CtrlPress('b', false),
    CtrlPress('T', true), CtrlPress('e', false), CtrlPress('/', false)
  ]

  /** Every default shortcut can be pressed: Ctrl (or Cmd) with the letter, and Shift where
      the shortcut names it. */
  lemma DefaultShortcutsReachable()
    ensures |DefaultPresses| == |DefaultShortcuts|
    ensures forall i :: 0 <= i < |DefaultShortcuts| ==> KeyString(DefaultPresses[i]) == DefaultShortcuts[i].1
  {
    CtrlPressString('s', false);
    CtrlPressString('A', true);
    CtrlPressString('f', false);
    CtrlPressString('r', false);
    CtrlPressString('n', false);
    CtrlPressString('o', false);
    CtrlPressString('b', false);
    CtrlPressString('T', true);
    CtrlPressString('e', false);
    CtrlPressString('/', false);
  }

  /** Ctrl+S on a page (not in a text field) writes "Cmd+S" and runs the save shortcut;
      inside a text area it does nothing. */
  lemma SavePressed()
    ensures KeyString(KeyEvent("s", true, false, false, false, "DIV", "inherit")) == "Cmd+S"
    ensures Handle([Shortcut("Cmd+S", "Save", None)], true, KeyEvent("s", true, false, false, false, "DIV", "inherit"))
            == Triggered(0)
    ensures Handle([Shortcut("Cmd+S", "Save", None)], true, KeyEvent("s", true, false, false, false, "TEXTAREA", "inherit"))
            == Ignored
  {
    var e := KeyEvent("s", true, false, false, false, "DIV", "inherit");
    assert Modifiers(e) == ["Cmd"];
    assert Upper("s") == "S";
    assert Join(["Cmd", "S"], "+") == "Cmd" + "+" + Join(["S"], "+");
    assert KeyString(e) == "Cmd+S";
    assert Matches(Shortcut("Cmd+S", "Save", None), "Cmd+S");
  }
}
