/** Order specifications: a column of names and a column of values, their dimensions separated by
  * either of two semicolons.
  */
module OrderSpec {
  import opened Options
  import opened GoStrings

  const SEPARATOR: char := '\U{FF1B}'

  predicate IsSeparator(c: char) {
    c == ';' || c == SEPARATOR
  }

  /** The trimmed pieces between separators, `current` being the piece read so far. */
  function Pieces(s: string, current: string): (r: seq<string>)
    ensures r != []
  {
    if s == [] then [Trim(current)]
    else if IsSeparator(s[0]) then [Trim(current)] + Pieces(s[1..], [])
    else Pieces(s[1..], current + [s[0]])
  }

  /** `split`: the dimensions of one column; a blank column has none. */
  function Dimensions(column: string): seq<string> {
    if Blank(column) then [] else Pieces(Trim(column), [])
  }

  datatype Normalized = Normalized(name: string, value: string, dimensions: nat)

  predicate WellFormed(name: string, value: string) {
    var names, values := Dimensions(name), Dimensions(value);
    |names| == |values| && forall i :: 0 <= i < |names| ==> names[i] != [] && values[i] != []
  }

  /** `NormalizeColumns`; `None` is an error. */
  function Normalize(name: string, value: string): Option<Normalized> {
    var names, values := Dimensions(name), Dimensions(value);
    if |names| != |values| then None
    else if names == [] || (names == [""] && values == [""]) then Some(Normalized("", "", 0))
    else if exists i :: 0 <= i < |names| && (names[i] == [] || values[i] == []) then None
    else Some(Normalized(JoinDimensions(names), JoinDimensions(values), |names|))
  }

  function JoinDimensions(parts: seq<string>): string {
    if parts == [] then "" else if |parts| == 1 then parts[0] else parts[0] + [SEPARATOR] + JoinDimensions(parts[1..])
  }

  /** `Equal`: both sides are valid and their normal forms are the same text. */
  predicate Equal(leftName: string, leftValue: string, rightName: string, rightValue: string) {
    var left, right := Normalize(leftName, leftValue), Normalize(rightName, rightValue);
    left.Some? && right.Some? && left.value.name == right.value.name && left.value.value == right.value.value
  }

  predicate NoSeparator(s: string) {
    forall i :: 0 <= i < |s| ==> !IsSeparator(s[i])
  }

  lemma {:induction false} TrimLeftKeeps(s: string)
    requires NoSeparator(s)
    ensures NoSeparator(TrimLeft(s))
  {
    if s != [] && IsSpace(s[0]) {
      TrimLeftKeeps(s[1..]);
    }
  }

  lemma {:induction false} PiecesHaveNoSeparator(s: string, current: string)
    requires NoSeparator(current)
    ensures forall i :: 0 <= i < |Pieces(s, current)| ==> NoSeparator(Pieces(s, current)[i])
    decreases |s|
  {
    TrimLeftKeeps(current);
    if s != [] {
      PiecesHaveNoSeparator(s[1..], if IsSeparator(s[0]) then [] else current + [s[0]]);
    }
  }

  lemma {:induction false} SinglePiece(s: string, current: string)
    requires |Pieces(s, current)| == 1
    ensures Pieces(s, current) == [Trim(current + s)]
    decreases |s|
  {
    if s == [] {
      assert current + s == current;
    } else {
      SinglePiece(s[1..], current + [s[0]]);
      assert current + [s[0]] + s[1..] == current + s;
    }
  }

  /** A column never has a single empty dimension. */
  lemma NoSingleEmptyDimension(column: string)
    ensures Dimensions(column) != [""]
  {
    if !Blank(column) && |Dimensions(column)| == 1 {
      SinglePiece(Trim(column), []);
      TrimOfTrimmed(Trim(column));
      assert [] + Trim(column) == Trim(column);
    }
  }

  lemma DimensionsHaveNoSeparator(column: string)
    ensures forall i :: 0 <= i < |Dimensions(column)| ==> NoSeparator(Dimensions(column)[i])
  {
    PiecesHaveNoSeparator(Trim(column), []);
  }

  /** How far the first separator is. */
  function HeadLength(s: string): nat {
    if s == [] || IsSeparator(s[0]) then 0 else 1 + HeadLength(s[1..])
  }

  lemma {:induction false} HeadLengthOf(head: string, tail: string)
    requires NoSeparator(head) && (tail == [] || IsSeparator(tail[0]))
    ensures HeadLength(head + tail) == |head|
  {
    if head == [] {
      assert head + tail == tail;
    } else {
      assert (head + tail)[1..] == head[1..] + tail;
      HeadLengthOf(head[1..], tail);
    }
  }

  /** The first dimension of a joined text and what follows it. */
  function Tail(parts: seq<string>): (r: string)
    requires parts != []
    ensures JoinDimensions(parts) == parts[0] + r && (r == [] || IsSeparator(r[0])) && (r == [] <==> |parts| == 1)
  {
    if |parts| == 1 then [] else
      assert parts[0] + [SEPARATOR] + JoinDimensions(parts[1..]) == parts[0] + ([SEPARATOR] + JoinDimensions(parts[1..]));
      [SEPARATOR] + JoinDimensions(parts[1..])
  }

  /** Joined dimensions determine the dimensions. */
  lemma {:induction false} JoinIsInjective(a: seq<string>, b: seq<string>)
    requires forall i :: 0 <= i < |a| ==> a[i] != [] && NoSeparator(a[i])
    requires forall i :: 0 <= i < |b| ==> b[i] != [] && NoSeparator(b[i])
    requires JoinDimensions(a) == JoinDimensions(b)
    ensures a == b
  {
    if a != [] && b != [] {
      var s := JoinDimensions(a);
      HeadLengthOf(a[0], Tail(a));
      HeadLengthOf(b[0], Tail(b));
      assert a[0] == s[..HeadLength(s)] == b[0];
      assert Tail(a) == s[HeadLength(s)..] == Tail(b);
      if |a| > 1 {
        assert JoinDimensions(a[1..]) == Tail(a)[1..] == Tail(b)[1..] == JoinDimensions(b[1..]);
        JoinIsInjective(a[1..], b[1..]);
      }
      assert a == [a[0]] + a[1..] && b == [b[0]] + b[1..];
    }
  }

  /** Two specifications are equal exactly when both are well formed and their dimensions, in order,
    * have the same names and values.
    */
  lemma EqualMeansSameDimensions(leftName: string, leftValue: string, rightName: string, rightValue: string)
    ensures Equal(leftName, leftValue, rightName, rightValue) <==>
              && WellFormed(leftName, leftValue) && WellFormed(rightName, rightValue)
              && Dimensions(leftName) == Dimensions(rightName) && Dimensions(leftValue) == Dimensions(rightValue)
  {
    hide JoinDimensions, Dimensions, NoSeparator;
    DimensionsHaveNoSeparator(leftName);
    DimensionsHaveNoSeparator(leftValue);
    DimensionsHaveNoSeparator(rightName);
    DimensionsHaveNoSeparator(rightValue);
    NoSingleEmptyDimension(leftName);
    NoSingleEmptyDimension(rightName);
    if Equal(leftName, leftValue, rightName, rightValue) {
      JoinOfNothing();
      JoinIsInjective(Dimensions(leftName), Dimensions(rightName));
      JoinIsInjective(Dimensions(leftValue), Dimensions(rightValue));
    }
  }

  lemma JoinOfNothing()
    ensures JoinDimensions([]) == ""
  {}

  // ---- the dimensions of a column ----

  /** The parts with one of the two semicolons between each two. */
  function Joined(parts: seq<string>, semicolons: seq<char>): string
    requires |parts| == |semicolons| + 1
  {
    if |parts| == 1 then parts[0] else parts[0] + [semicolons[0]] + Joined(parts[1..], semicolons[1..])
  }

  function AllTrimmed(parts: seq<string>): seq<string> {
    seq(|parts|, i requires 0 <= i < |parts| => Trim(parts[i]))
  }

  /** A column that starts and ends with something visible has as dimensions exactly the texts between its
    * semicolons, without the white space around them; white space around the column does not matter.
    */
  lemma DimensionsOfParts(parts: seq<string>, semicolons: seq<char>, before: string, after: string)
    requires |parts| == |semicolons| + 1
    requires forall i :: 0 <= i < |semicolons| ==> semicolons[i] == ';' || semicolons[i] == '\U{FF1B}'
    requires forall i, j :: 0 <= i < |parts| && 0 <= j < |parts[i]| ==> parts[i][j] != ';' && parts[i][j] != '\U{FF1B}'
    requires forall i :: 0 <= i < |before| ==> IsSpace(before[i])
    requires forall i :: 0 <= i < |after| ==> IsSpace(after[i])
    requires Joined(parts, semicolons) != "" && Trimmed(Joined(parts, semicolons))
    ensures Dimensions(before + Joined(parts, semicolons) + after) == AllTrimmed(parts)
  {
    hide Pieces, Joined, AllTrimmed, TrimLeft, TrimRight;
    var column := Joined(parts, semicolons);
    assert before + column + after == before + (column + after);
    TrimStripsLeft(before, column + after);
    TrimStripsRight(column, after);
    PiecesOfParts(parts, semicolons);
  }

  lemma {:induction false} PiecesOfParts(parts: seq<string>, semicolons: seq<char>)
    requires |parts| == |semicolons| + 1
    requires forall i :: 0 <= i < |semicolons| ==> semicolons[i] == ';' || semicolons[i] == '\U{FF1B}'
    requires forall i, j :: 0 <= i < |parts| && 0 <= j < |parts[i]| ==> parts[i][j] != ';' && parts[i][j] != '\U{FF1B}'
    ensures Pieces(Joined(parts, semicolons), []) == AllTrimmed(parts)
    decreases |parts|
  {
    hide Trim;
    if |parts| == 1 {
      LastPiece(parts[0], []);
      assert [] + parts[0] == parts[0];
    } else {
      PiecesOfParts(parts[1..], semicolons[1..]);
      FirstPiece(parts[0], semicolons[0], Joined(parts[1..], semicolons[1..]), []);
      assert [] + parts[0] == parts[0];
      assert AllTrimmed(parts) == [Trim(parts[0])] + AllTrimmed(parts[1..]);
    }
  }

  lemma {:induction false} FirstPiece(part: string, semicolon: char, rest: string, current: string)
    requires semicolon == ';' || semicolon == '\U{FF1B}'
    requires forall j :: 0 <= j < |part| ==> part[j] != ';' && part[j] != '\U{FF1B}'
    ensures Pieces(part + [semicolon] + rest, current) == [Trim(current + part)] + Pieces(rest, [])
    decreases |part|
  {
    hide Trim;
    var all := part + [semicolon] + rest;
    if part == "" {
      assert all[1..] == rest && current + part == current;
    } else {
      assert all[1..] == part[1..] + [semicolon] + rest;
      FirstPiece(part[1..], semicolon, rest, current + [part[0]]);
      assert current + [part[0]] + part[1..] == current + part;
    }
  }

  lemma {:induction false} LastPiece(part: string, current: string)
    requires forall j :: 0 <= j < |part| ==> part[j] != ';' && part[j] != '\U{FF1B}'
    ensures Pieces(part, current) == [Trim(current + part)]
    decreases |part|
  {
    hide Trim;
    if part == "" {
      assert current + part == current;
    } else {
      LastPiece(part[1..], current + [part[0]]);
      assert current + [part[0]] + part[1..] == current + part;
    }
  }
}
