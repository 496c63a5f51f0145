/**
 * UI.cs: the parts of the widget factory with logic of their own. These are the range hint
 * parser SetRangeFromHint, the control chosen for each script variable by GetEditControls, and
 * the popup menu filled by SetMenuItems with its title rule.
 *
 * Float parsing (`float.TryParse`) and title casing (Humanizer) are foreign code; they are
 * parameters.
 */
module UI {
  import opened Optional

  /** `String.Split(sep)`: the pieces between separators, always at least one. */
  function Split(s: string, sep: char): (parts: seq<string>)
    ensures |parts| >= 1
    ensures forall k :: 0 <= k < |parts| ==> sep !in parts[k]
  {
    if s == [] then [[]]
    else
      var rest := Split(s[1..], sep);
      if s[0] == sep then [[]] + rest else [[s[0]] + rest[0]] + rest[1..]
  }

  /** `String.Join(sep, parts)`. */
  function Join(parts: seq<string>, sep: char): string
    requires |parts| >= 1
  {
    if |parts| == 1 then parts[0] else parts[0] + [sep] + Join(parts[1..], sep)
  }

  /** Splitting loses nothing: joining the pieces gives the string back. */
  lemma {:induction false} JoinSplit(s: string, sep: char)
    ensures Join(Split(s, sep), sep) == s
  {
    if s != [] {
      var rest := Split(s[1..], sep);
      JoinSplit(s[1..], sep);
      if s[0] == sep {
        assert Split(s, sep)[1..] == rest;
      } else if |rest| > 1 {
        assert Split(s, sep)[1..] == rest[1..];
        assert Join(rest, sep) == rest[0] + [sep] + Join(rest[1..], sep);
      }
    }
  }

  /** A string ending in the separator splits into at least two pieces, the last one empty. */
  lemma {:induction false} SplitTrailing(s: string, sep: char)
    requires s != [] && s[|s| - 1] == sep
    ensures |Split(s, sep)| >= 2 && Split(s, sep)[|Split(s, sep)| - 1] == []
  {
    var t := s[1..];
    if t != [] {
      assert t[|t| - 1] == sep;
      SplitTrailing(t, sep);
    }
  }

  /** The first piece is the text before the first separator (all of it when there is none). */
  lemma {:induction false} SplitFirst(s: string, sep: char)
    ensures Split(s, sep)[0] <= s
    ensures sep !in s ==> Split(s, sep)[0] == s
    ensures sep in s ==> |Split(s, sep)[0]| < |s| && s[|Split(s, sep)[0]|] == sep
  {
    if s != [] {
      SplitFirst(s[1..], sep);
      if s[0] != sep {
        assert sep in s ==> sep in s[1..];
      }
    }
  }

  // ---------------------------------------------------------------- SetRangeFromHint

  /** `char.IsWhiteSpace` on the Latin-1 range. */
  predicate IsWhiteSpace(c: char) {
    c == ' ' || c == '\t' || c == '\n' || c == '\U{000B}' || c == '\U{000C}' || c == '\r'
    || c == '\U{0085}' || c == '\U{00A0}'
  }

  /** `string.IsNullOrWhiteSpace`. */
  predicate IsNullOrWhiteSpace(s: Option<string>) {
    s.None? || forall k :: 0 <= k < |s.value| ==> IsWhiteSpace(s.value[k])
  }

  /** The settings of a Godot Range that a hint can change. */
  datatype RangeState = RangeState(minValue: real, maxValue: real, step: real, allowGreater: bool, allowLesser: bool)

  /** The range so far, the count of numbers so far (starting at -1), and whether a token threw. */
  datatype Parsed = Parsed(range: RangeState, count: int, thrown: bool)

  /** SetValue: the next number goes to MinValue, MaxValue, then Step; a fourth throws. */
  function SetValue(value: real, p: Parsed): (r: Parsed)
    ensures r.count == p.count + 1
    ensures r.thrown <==> p.count + 1 > 2 || p.count + 1 < 0
  {
    var count := p.count + 1;
    if count == 0 then Parsed(p.range.(minValue := value), count, false)
    else if count == 1 then Parsed(p.range.(maxValue := value), count, false)
    else if count == 2 then Parsed(p.range.(step := value), count, false)
    else Parsed(p.range, count, true)
  }

  /** One token of the hint. */
  function ParsePart(part: string, parse: string -> Option<real>, p: Parsed): Parsed {
    if part == "or_greater" then p.(range := p.range.(allowGreater := true))
    else if part == "or_less" then p.(range := p.range.(allowLesser := true))
    else if parse(part).Some? then SetValue(parse(part).value, p)
    else p.(thrown := true)
  }

  /** The tokens in order, stopping at the first that throws. */
  function ParseParts(parts: seq<string>, parse: string -> Option<real>, p: Parsed): Parsed
    decreases |parts|
  {
    if parts == [] || p.thrown then p
    else ParseParts(parts[1..], parse, ParsePart(parts[0], parse, p))
  }

  /** A token that is neither flag nor number makes the hint throw. */
  predicate Unrecognised(part: string, parse: string -> Option<real>) {
    part != "or_greater" && part != "or_less" && parse(part).None?
  }

  /** Any unrecognised token, wherever it stands, makes the whole hint throw. */
  lemma {:induction false} UnrecognisedThrows(parts: seq<string>, parse: string -> Option<real>, p: Parsed, k: nat)
    requires k < |parts| && Unrecognised(parts[k], parse)
    ensures ParseParts(parts, parse, p).thrown
    decreases |parts|
  {
    if !p.thrown {
      if k == 0 {
        var q := ParsePart(parts[0], parse, p);
        assert q.thrown;
        assert ParseParts(parts[1..], parse, q) == q;
      } else {
        UnrecognisedThrows(parts[1..], parse, ParsePart(parts[0], parse, p), k - 1);
      }
    }
  }

  /** A hint ending in a comma throws, because its last token is empty and "" does not parse. */
  lemma TrailingCommaThrows(hint: string, parse: string -> Option<real>, start: RangeState)
    requires hint != [] && hint[|hint| - 1] == ','
    requires parse([]).None?
    ensures ParseParts(Split(hint, ','), parse, Parsed(start, -1, false)).thrown
  {
    SplitTrailing(hint, ',');
    var parts := Split(hint, ',');
    UnrecognisedThrows(parts, parse, Parsed(start, -1, false), |parts| - 1);
  }

  /** Up to three numbers fill MinValue, MaxValue and Step in that order and leave the flags alone. */
  lemma NumbersInOrder(parts: seq<string>, parse: string -> Option<real>, start: RangeState)
    requires 1 <= |parts| <= 3
    requires forall k :: 0 <= k < |parts| ==> parse(parts[k]).Some? && parts[k] != "or_greater" && parts[k] != "or_less"
    ensures var r := ParseParts(parts, parse, Parsed(start, -1, false));
      && !r.thrown
      && r.range.minValue == parse(parts[0]).value
      && (|parts| >= 2 ==> r.range.maxValue == parse(parts[1]).value)
      && (|parts| == 3 ==> r.range.step == parse(parts[2]).value)
      && r.range.allowGreater == start.allowGreater && r.range.allowLesser == start.allowLesser
  {
    var p0 := Parsed(start, -1, false);
    var p1 := ParsePart(parts[0], parse, p0);
    assert ParseParts(parts, parse, p0) == ParseParts(parts[1..], parse, p1);
    if |parts| >= 2 {
      var p2 := ParsePart(parts[1], parse, p1);
      assert ParseParts(parts[1..], parse, p1) == ParseParts(parts[2..], parse, p2);
      if |parts| == 3 {
        var p3 := ParsePart(parts[2], parse, p2);
        assert ParseParts(parts[2..], parse, p2) == ParseParts(parts[3..], parse, p3);
      }
    }
  }

  /** A hint of flag tokens only sets AllowGreater exactly when "or_greater" occurs, AllowLesser exactly when "or_less" occurs, and sets no number. */
  lemma {:induction false} FlagTokens(parts: seq<string>, parse: string -> Option<real>, p: Parsed)
    requires !p.thrown
    requires forall k :: 0 <= k < |parts| ==> parts[k] == "or_greater" || parts[k] == "or_less"
    ensures var r := ParseParts(parts, parse, p);
      && !r.thrown && r.count == p.count
      && (r.range.allowGreater <==> p.range.allowGreater || "or_greater" in parts)
      && (r.range.allowLesser <==> p.range.allowLesser || "or_less" in parts)
      && r.range.minValue == p.range.minValue && r.range.maxValue == p.range.maxValue && r.range.step == p.range.step
    decreases |parts|
  {
    if parts != [] {
      var q := ParsePart(parts[0], parse, p);
      FlagTokens(parts[1..], parse, q);
      assert parts == [parts[0]] + parts[1..];
      assert "or_greater" in parts <==> parts[0] == "or_greater" || "or_greater" in parts[1..];
      assert "or_less" in parts <==> parts[0] == "or_less" || "or_less" in parts[1..];
    }
  }

  /** A fourth number throws. */
  lemma FourthNumberThrows(parts: seq<string>, parse: string -> Option<real>, start: RangeState)
    requires |parts| == 4
    requires forall k :: 0 <= k < 4 ==> parse(parts[k]).Some? && parts[k] != "or_greater" && parts[k] != "or_less"
    ensures ParseParts(parts, parse, Parsed(start, -1, false)).thrown
  {
    var p := Parsed(start, -1, false);
    var k := 0;
    while k < 4
      invariant 0 <= k <= 4
      invariant !p.thrown <==> k < 4
      invariant p.count == k - 1
      invariant ParseParts(parts, parse, Parsed(start, -1, false)) == ParseParts(parts[k..], parse, p)
    {
      assert parts[k..][1..] == parts[k + 1..];
      p := ParsePart(parts[k], parse, p);
      k := k + 1;
    }
  }

  /** The value range of a Godot Range control (a slider or spin box). */
  class Range {
    var minValue: real
    var maxValue: real
    var step: real
    var allowGreater: bool
    var allowLesser: bool

    function State(): RangeState
      reads this
    {
      RangeState(minValue, maxValue, step, allowGreater, allowLesser)
    }

    constructor (state: RangeState)
      ensures State() == state
    {
      minValue := state.minValue;
      maxValue := state.maxValue;
      step := state.step;
      allowGreater := state.allowGreater;
      allowLesser := state.allowLesser;
    }

    /**
     * SetRangeFromHint: a null or blank hint changes nothing; otherwise the comma-separated
     * tokens are applied in order, and a throw leaves what the earlier tokens set.
     */
    method SetRangeFromHint(hint: Option<string>, parse: string -> Option<real>) returns (thrown: bool)
      modifies this
      ensures IsNullOrWhiteSpace(hint) ==> !thrown && State() == old(State())
      ensures !IsNullOrWhiteSpace(hint) ==>
        var r := ParseParts(Split(hint.value, ','), parse, Parsed(old(State()), -1, false));
        thrown == r.thrown && State() == r.range
    {
      if IsNullOrWhiteSpace(hint) {
        return false;
      }
      var dblCount := -1;
      var parts := Split(hint.value, ',');
      ghost var start := Parsed(State(), -1, false);
      for i := 0 to |parts|
        invariant ParseParts(parts, parse, start) == ParseParts(parts[i..], parse, Parsed(State(), dblCount, false))
      {
        var part := parts[i];
        assert parts[i..][1..] == parts[i + 1..];
        if part == "or_greater" {
          allowGreater := true;
        } else if part == "or_less" {
          allowLesser := true;
        } else if parse(part).Some? {
          thrown, dblCount := SetValueOf(parse(part).value, dblCount);
          if thrown {
            return;
          }
        } else {
          return true;
        }
      }
      return false;
    }

    /** The local SetValue: bumps the count and sets the slot it names, or throws past the third. */
    method SetValueOf(value: real, dblCount: int) returns (thrown: bool, count: int)
      modifies this
      ensures var r := SetValue(value, Parsed(old(State()), dblCount, false));
        thrown == r.thrown && count == r.count && State() == r.range
    {
      count := dblCount + 1;
      thrown := false;
      if count == 0 {
        minValue := value;
      } else if count == 1 {
        maxValue := value;
      } else if count == 2 {
        step := value;
      } else {
        thrown := true;
      }
    }
  }

  // ---------------------------------------------------------------- GetEditControls

  /** The property hints GetEditControls distinguishes. */
  datatype PropertyHint = NoHint | EnumHint | RangeHint | OtherHint

  /** The variant types GetEditControls distinguishes. */
  datatype VariantType = IntType | BoolType | FloatType | StringType | StringNameType | OtherType

  /** The edit control made for a property. */
  datatype Control = OptionButton | Slider(rounded: bool) | SpinBox(rounded: bool) | CheckButton | LineEdit

  /** An entry of GetPropertyList. */
  datatype PropertyInfo = PropertyInfo(name: string, scriptVariable: bool, godotType: VariantType, hint: PropertyHint)

  /**
   * The control for a property: the hint decides first (enum, then range, rounded for integers),
   * then the type; other types get none.
   */
  function ControlFor(hint: PropertyHint, godotType: VariantType): (r: Option<Control>)
    ensures hint == EnumHint ==> r == Some(OptionButton)
    ensures hint == RangeHint ==> r == Some(Slider(godotType == IntType))
    ensures hint != EnumHint && hint != RangeHint ==>
      && (r == Some(SpinBox(true)) <==> godotType == IntType)
      && (r == Some(CheckButton) <==> godotType == BoolType)
      && (r == Some(SpinBox(false)) <==> godotType == FloatType)
      && (r == Some(LineEdit) <==> godotType == StringType || godotType == StringNameType)
      && (r == None <==> godotType == OtherType)
  {
    if hint == EnumHint then Some(OptionButton)
    else if hint == RangeHint then Some(Slider(godotType == IntType))
    else match godotType
      case IntType => Some(SpinBox(true))
      case BoolType => Some(CheckButton)
      case FloatType => Some(SpinBox(false))
      case StringType => Some(LineEdit)
      case StringNameType => Some(LineEdit)
      case OtherType => None
  }

  /** GetEditControls: a labelled control for each script variable that has one, in list order. */
  function EditControls(props: seq<PropertyInfo>): (r: seq<(string, Control)>)
    ensures |r| <= |props|
  {
    if props == [] then []
    else
      var p := props[0];
      var rest := EditControls(props[1..]);
      if p.scriptVariable && ControlFor(p.hint, p.godotType).Some? then [(p.name, ControlFor(p.hint, p.godotType).value)] + rest
      else rest
  }

  /** A pair is produced exactly when some script variable of that name gets that control. */
  lemma {:induction false} EditControlsExactly(props: seq<PropertyInfo>, name: string, c: Control)
    ensures (name, c) in EditControls(props) <==>
      exists k :: 0 <= k < |props| && props[k].name == name && props[k].scriptVariable
                                   && ControlFor(props[k].hint, props[k].godotType) == Some(c)
  {
    if props != [] {
      EditControlsExactly(props[1..], name, c);
      if (name, c) in EditControls(props[1..]) {
        var k :| 0 <= k < |props| - 1 && props[1..][k].name == name && props[1..][k].scriptVariable
                                      && ControlFor(props[1..][k].hint, props[1..][k].godotType) == Some(c);
        assert props[k + 1] == props[1..][k];
      }
      if exists k :: 0 <= k < |props| && props[k].name == name && props[k].scriptVariable
                     && ControlFor(props[k].hint, props[k].godotType) == Some(c) {
        var k :| 0 <= k < |props| && props[k].name == name && props[k].scriptVariable
                 && ControlFor(props[k].hint, props[k].godotType) == Some(c);
        if k > 0 {
          assert props[1..][k - 1] == props[k];
        }
      }
    }
  }

  // ---------------------------------------------------------------- SetMenuItems

  predicate EndsWithEllipsis(item: string) {
    |item| >= 3 && item[|item| - 3..] == "..."
  }

  /**
   * GetTitle (before title casing): an item ending in "..." is kept whole; any other item is cut
   * at its first '.'.
   */
  function GetTitle(item: string): (title: string)
    ensures title <= item
    ensures EndsWithEllipsis(item) ==> title == item
    ensures !EndsWithEllipsis(item) ==> '.' !in title
    ensures !EndsWithEllipsis(item) && '.' !in item ==> title == item
    ensures !EndsWithEllipsis(item) && '.' in item ==> |title| < |item| && item[|title|] == '.'
  {
    SplitFirst(item, '.');
    if EndsWithEllipsis(item) then item else Split(item, '.')[0]
  }

  /** An item of a popup menu: its shown text and its metadata. */
  datatype MenuItem = MenuItem(text: string, metadata: Option<string>)

  class PopupMenu {
    var items: seq<MenuItem>

    constructor ()
      ensures items == []
    {
      items := [];
    }

    method RemoveItem(idx: nat)
      requires idx < |items|
      modifies this
      ensures items == old(items[..idx] + items[idx + 1..])
    {
      items := items[..idx] + items[idx + 1..];
    }

    method AddItem(text: string)
      modifies this
      ensures items == old(items) + [MenuItem(text, None)]
    {
      items := items + [MenuItem(text, None)];
    }

    /** SetItemMetadata: an index out of range is reported by the engine and changes nothing. */
    method SetItemMetadata(idx: nat, metadata: string)
      modifies this
      ensures idx < |old(items)| ==> items == old(items)[idx := old(items)[idx].(metadata := Some(metadata))]
      ensures idx >= |old(items)| ==> items == old(items)
    {
      if idx < |items| {
        items := items[idx := items[idx].(metadata := Some(metadata))];
      }
    }

    /**
     * SetMenuItems: removes every item, then adds each given item in order, shown by its cased
     * title and carrying the item itself as metadata.
     */
    method SetMenuItems(menuItems: seq<string>, humanize: string -> string)
      modifies this
      ensures |items| == |menuItems|
      ensures forall k :: 0 <= k < |items| ==> items[k] == MenuItem(humanize(GetTitle(menuItems[k])), Some(menuItems[k]))
    {
      while |items| != 0
        decreases |items|
      {
        RemoveItem(0);
      }
      for idx := 0 to |menuItems|
        invariant |items| == idx
        invariant forall k :: 0 <= k < idx ==> items[k] == MenuItem(humanize(GetTitle(menuItems[k])), Some(menuItems[k]))
      {
        var item := menuItems[idx];
        AddItem(humanize(GetTitle(item)));
        SetItemMetadata(idx, item);
      }
    }
  }
}
