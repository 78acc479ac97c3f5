/** The matcher of grep against a declarative meaning of patterns. */
module Grep {
  /** The parts of a pattern: one character, any number of one, or the end of the text; '.' is any character. */
  datatype Item = One(c: char) | Many(c: char) | End

  function Items(re: string): seq<Item> {
    if re == [] then []
    else if |re| >= 2 && re[1] == '*' then [Many(re[0])] + Items(re[2..])
    else if re == "$" then [End]
    else [One(re[0])] + Items(re[1..])
  }

  predicate Is(c: char, x: char) { c == '.' || c == x }

  /** A piece of text that an item stands for. */
  predicate Fits(it: Item, piece: string) {
    match it
    case One(c) => |piece| == 1 && Is(c, piece[0])
    case Many(c) => forall k :: 0 <= k < |piece| ==> Is(c, piece[k])
    case End => piece == []
  }

  function Concat(pieces: seq<string>): string {
    if pieces == [] then [] else pieces[0] + Concat(pieces[1..])
  }

  /** Text begins with one piece per item, in order, and ends with them if the last item is End. */
  ghost predicate Splits(items: seq<Item>, text: string, pieces: seq<string>) {
    && |pieces| == |items| && |Concat(pieces)| <= |text| && Concat(pieces) == text[..|Concat(pieces)|]
    && (forall i :: 0 <= i < |items| ==> Fits(items[i], pieces[i]))
    && (items != [] && items[|items| - 1].End? ==> Concat(pieces) == text)
  }

  ghost predicate Begins(items: seq<Item>, text: string) {
    exists pieces: seq<string> :: Splits(items, text, pieces)
  }

  /** The declarative meaning of a pattern: a prefix under ^, otherwise a substring. */
  ghost predicate Meaning(re: string, text: string) {
    if re != [] && re[0] == '^' then Begins(Items(re[1..]), text)
    else exists k: nat :: From(Items(re), text, k)
  }

  ghost predicate From(items: seq<Item>, text: string, k: nat) { k <= |text| && Begins(items, text[k..]) }

  // ----- one item at a time -----

  ghost predicate Step(it: Item, items: seq<Item>, text: string, k: nat) {
    k <= |text| && Fits(it, text[..k]) && Begins(items, text[k..]) && (it.End? && items == [] ==> k == |text|)
  }

  lemma BeginsNone(text: string)
    ensures Begins([], text)
  {
    assert Splits([], text, []);
  }

  lemma StepGives(it: Item, items: seq<Item>, text: string, k: nat)
    requires Step(it, items, text, k)
    ensures Begins([it] + items, text)
  {
    var rest: seq<string> :| Splits(items, text[k..], rest);
    var pieces := [text[..k]] + rest;
    assert pieces[1..] == rest;
    assert Splits([it] + items, text, pieces);
  }

  lemma GivesStep(it: Item, items: seq<Item>, text: string) returns (k: nat)
    requires Begins([it] + items, text)
    ensures Step(it, items, text, k)
  {
    var all := [it] + items;
    var pieces: seq<string> :| Splits(all, text, pieces);
    var rest := pieces[1..];
    k := |pieces[0]|;
    assert Concat(pieces) == pieces[0] + Concat(rest);
    assert text[..k] == pieces[0];
    assert Concat(rest) == text[k..][..|Concat(rest)|];
    forall i | 0 <= i < |items| ensures Fits(items[i], rest[i]) { assert all[i + 1] == items[i]; }
    if items != [] { assert all[|all| - 1] == items[|items| - 1]; }
    assert Splits(items, text[k..], rest);
  }

  /** One character: it must be the next. */
  lemma OneItem(c: char, items: seq<Item>, text: string)
    ensures Begins([One(c)] + items, text) <==> text != [] && Is(c, text[0]) && Begins(items, text[1..])
  {
    if Begins([One(c)] + items, text) { var k := GivesStep(One(c), items, text); }
    if text != [] && Is(c, text[0]) && Begins(items, text[1..]) { StepGives(One(c), items, text, 1); }
  }

  lemma EndItem(text: string)
    ensures Begins([End], text) <==> text == []
  {
    assert [End] + [] == [End];
    if Begins([End], text) { var k := GivesStep(End, [], text); }
    if text == [] {
      BeginsNone(text[0..]);
      StepGives(End, [], text, 0);
    }
  }

  /** Any number of a character: some run of it, then the rest. */
  lemma ManyItem(c: char, items: seq<Item>, text: string)
    ensures Begins([Many(c)] + items, text) <==> exists k: nat :: Step(Many(c), items, text, k)
  {
    if Begins([Many(c)] + items, text) { var k := GivesStep(Many(c), items, text); }
    if k: nat :| Step(Many(c), items, text, k) { StepGives(Many(c), items, text, k); }
  }

  // ----- the code -----

  method Matchhere(re: string, text: string) returns (r: bool)
    ensures r <==> Begins(Items(re), text)
    decreases |re|, 0
  {
    hide Begins;
    if re == [] { BeginsNone(text); return true; }
    if |re| >= 2 && re[1] == '*' { r := Matchstar(re[0], re[2..], text); return; }
    if re[0] == '$' && |re| == 1 { EndItem(text); return text == []; }
    OneItem(re[0], Items(re[1..]), text);
    if text != [] && (re[0] == '.' || re[0] == text[0]) { r := Matchhere(re[1..], text[1..]); return; }
    r := false;
  }

  /** matchstar: tries the rest of the pattern after ever longer runs of c. */
  method Matchstar(c: char, re: string, text: string) returns (r: bool)
    ensures r <==> Begins([Many(c)] + Items(re), text)
    decreases |re| + 1
  {
    hide Begins, Items;
    ManyItem(c, Items(re), text);
    var t := 0;
    while true
      invariant 0 <= t <= |text| && Fits(Many(c), text[..t])
      invariant forall k: nat :: k < t ==> !Step(Many(c), Items(re), text, k)
      decreases |text| - t
    {
      r := Matchhere(re, text[t..]);
      if r { assert Step(Many(c), Items(re), text, t); return true; }
      if t == |text| || !(text[t] == c || c == '.') {
        forall k: nat ensures !Step(Many(c), Items(re), text, k) {
          if t < k <= |text| { assert text[..k][t] == text[t]; }
        }
        return false;
      }
      assert forall k :: 0 <= k < t ==> text[..t + 1][k] == text[..t][k];
      t := t + 1;
    }
  }

  /** match: the pattern's meaning, exactly. */
  method Match(re: string, text: string) returns (r: bool)
    ensures r <==> Meaning(re, text)
  {
    hide Begins, Items;
    if re != [] && re[0] == '^' { r := Matchhere(re[1..], text); return; }
    var t := 0;
    while t <= |text|
      invariant 0 <= t <= |text| + 1
      invariant forall k: nat :: k < t ==> !From(Items(re), text, k)
    {
      r := Matchhere(re, text[t..]);
      if r { assert From(Items(re), text, t); return true; }
      t := t + 1;
    }
    r := false;
  }
}
