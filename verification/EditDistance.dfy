/**
 * The confusion-weighted edit distance: the rolling-row loop, proved to compute the cheapest
 * edit script, and what that distance does and does not satisfy.
 */
module EditDistance {
  import PlateGrammar

  /** Glyphs that recognisers mistake for one another. */
  const CONFUSABLE: seq<set<char>> := [
    {'ب', 'پ', 'ت', 'ث'}, {'ج', 'ح'}, {'س', 'ش'}, {'ص', 'ط'}, {'د', 'ذ'}, {'ز', 'ژ'}, {'ق', 'ف'}, {'ک', 'گ'},
    {'ه', '5'}, {'ا', '1'}, {'4', '6'}, {'2', '3'}, {'7', '8'}, {'6', '9'}, {'0', '5'}
  ]
  const CONFUSION_COST: real := 0.4

  predicate Confusable(a: char, b: char) {
    a != b && exists g :: 0 <= g < |CONFUSABLE| && a in CONFUSABLE[g] && b in CONFUSABLE[g]
  }

  function SubstitutionCost(a: char, b: char): (cost: real)
    ensures 0.0 <= cost <= 1.0 && (cost == 0.0 <==> a == b)
  {
    if a == b then 0.0 else if Confusable(a, b) then CONFUSION_COST else 1.0
  }

  // ---------------------------------------------------------------- edit scripts

  /** The price of substituting one character for another. */
  type Sub = (char, char) -> real

  ghost predicate IsPrice(sub: Sub) {
    (forall a, b :: 0.0 <= sub(a, b) <= 1.0 && (sub(a, b) == 0.0 <==> a == b))
    && forall a, b :: sub(a, b) == sub(b, a)
  }

  /** Edits applied to the end of a text; `Substitute` by the same character keeps it. */
  datatype Edit = Insert(c: char) | Delete | Substitute(c: char)

  /** The script turns `x` into `y`; edits act on the last characters, the last edit first. */
  ghost predicate Transforms(script: seq<Edit>, x: string, y: string)
    decreases script
  {
    if script == [] then x == [] && y == []
    else
      var rest, e := script[..|script| - 1], script[|script| - 1];
      match e
      case Insert(c) => y != [] && y[|y| - 1] == c && Transforms(rest, x, y[..|y| - 1])
      case Delete => x != [] && Transforms(rest, x[..|x| - 1], y)
      case Substitute(c) => x != [] && y != [] && y[|y| - 1] == c && Transforms(rest, x[..|x| - 1], y[..|y| - 1])
  }

  ghost function Cost(sub: Sub, script: seq<Edit>, x: string): real
    decreases script
  {
    if script == [] then 0.0
    else
      var rest, e := script[..|script| - 1], script[|script| - 1];
      match e
      case Insert(_) => Cost(sub, rest, x) + 1.0
      case Delete => Cost(sub, rest, if x == [] then [] else x[..|x| - 1]) + 1.0
      case Substitute(c) =>
        Cost(sub, rest, if x == [] then [] else x[..|x| - 1]) + if x == [] then 0.0 else sub(x[|x| - 1], c)
  }

  // ---------------------------------------------------------------- the table

  function Min(a: real, b: real): real { if a <= b then a else b }

  /** The cheapest of deleting, inserting and substituting. */
  function Cheapest(up: real, left: real, diagonal: real, substitution: real): real {
    Min(Min(up + 1.0, left + 1.0), diagonal + substitution)
  }

  /** Distance between the first `i` characters of `x` and the first `j` of `y`. */
  ghost function Table(sub: Sub, x: string, y: string, i: nat, j: nat): real
    requires i <= |x| && j <= |y|
  {
    if i == 0 then j as real
    else if j == 0 then i as real
    else Cheapest(Table(sub, x, y, i - 1, j), Table(sub, x, y, i, j - 1),
      Table(sub, x, y, i - 1, j - 1), sub(x[i - 1], y[j - 1]))
  }

  ghost function Distance(x: string, y: string): real {
    Table(SubstitutionCost, x, y, |x|, |y|)
  }

  /** The first `n` cells of `row` are those of row `i` of the table. */
  ghost predicate IsRow(sub: Sub, x: string, y: string, i: nat, row: seq<real>, n: nat) {
    i <= |x| && n <= |y| + 1 && |row| >= n && forall k :: 0 <= k < n ==> row[k] == Table(sub, x, y, i, k)
  }

  function NextCell(sub: Sub, x: string, y: string, i: nat, j: nat, prev: seq<real>, cur: seq<real>): real
    requires 0 < i <= |x| && 0 < j <= |y| && j < |prev| && j <= |cur|
  {
    Cheapest(prev[j], cur[j - 1], prev[j - 1], sub(x[i - 1], y[j - 1]))
  }

  lemma CellIsTable(sub: Sub, x: string, y: string, i: nat, j: nat, prev: seq<real>, cur: seq<real>)
    requires 0 < i <= |x| && 0 < j <= |y| && IsRow(sub, x, y, i - 1, prev, |y| + 1) && IsRow(sub, x, y, i, cur, j)
    ensures NextCell(sub, x, y, i, j, prev, cur) == Table(sub, x, y, i, j)
  {
  }

  /** `plateDistance`: one row of the table at a time. */
  method PlateDistance(x: string, y: string) returns (d: real)
    ensures d == Distance(x, y)
  {
    var sub := SubstitutionCost;
    var prev: seq<real> := [];
    for j := 0 to |y| + 1
      invariant |prev| == j && IsRow(sub, x, y, 0, prev, j)
    {
      prev := prev + [j as real];
    }
    for i := 1 to |x| + 1
      invariant |prev| == |y| + 1 && IsRow(sub, x, y, i - 1, prev, |y| + 1)
    {
      prev := NextRow(sub, x, y, i, prev);
    }
    d := prev[|y|];
  }

  /** The inner loop. */
  method NextRow(sub: Sub, x: string, y: string, i: nat, prev: seq<real>) returns (cur: seq<real>)
    requires 0 < i <= |x| && IsRow(sub, x, y, i - 1, prev, |y| + 1)
    ensures |cur| == |y| + 1 && IsRow(sub, x, y, i, cur, |y| + 1)
  {
    cur := [i as real];
    for j := 1 to |y| + 1
      invariant |cur| == j && IsRow(sub, x, y, i, cur, j)
    {
      CellIsTable(sub, x, y, i, j, prev, cur);
      cur := cur + [NextCell(sub, x, y, i, j, prev, cur)];
    }
  }

  // ---------------------------------------------------------------- optimality

  /** The edit that gave cell (i, j) its value. */
  ghost function LastEdit(sub: Sub, x: string, y: string, i: nat, j: nat): Edit
    requires i <= |x| && j <= |y| && i + j > 0
  {
    if i > 0 && (j == 0 || Table(sub, x, y, i, j) == Table(sub, x, y, i - 1, j) + 1.0) then Delete
    else if i == 0 || Table(sub, x, y, i, j) == Table(sub, x, y, i, j - 1) + 1.0 then Insert(y[j - 1])
    else Substitute(y[j - 1])
  }

  /** The script turns one prefix into the other and costs exactly the cell. */
  ghost predicate IsCheapest(sub: Sub, script: seq<Edit>, x: string, y: string, i: nat, j: nat)
    requires i <= |x| && j <= |y|
  {
    Transforms(script, x[..i], y[..j]) && Cost(sub, script, x[..i]) == Table(sub, x, y, i, j)
  }

  /** Some script costs exactly the cell: follow the edits back. */
  lemma {:induction false} CheapestScript(sub: Sub, x: string, y: string, i: nat, j: nat) returns (script: seq<Edit>)
    requires i <= |x| && j <= |y|
    ensures IsCheapest(sub, script, x, y, i, j)
    decreases i + j
  {
    if i + j == 0 {
      script := [];
    } else {
      var e := LastEdit(sub, x, y, i, j);
      var k, l := if e.Insert? then i else i - 1, if e.Delete? then j else j - 1;
      var before := CheapestScript(sub, x, y, k, l);
      OneEditMore(sub, before, x, y, i, j);
      script := before + [e];
    }
  }

  lemma OneEditMore(sub: Sub, before: seq<Edit>, x: string, y: string, i: nat, j: nat)
    requires i <= |x| && j <= |y| && i + j > 0
    requires match LastEdit(sub, x, y, i, j)
             case Delete => i > 0 && IsCheapest(sub, before, x, y, i - 1, j)
             case Insert(_) => j > 0 && IsCheapest(sub, before, x, y, i, j - 1)
             case Substitute(_) => i > 0 && j > 0 && IsCheapest(sub, before, x, y, i - 1, j - 1)
    ensures IsCheapest(sub, before + [LastEdit(sub, x, y, i, j)], x, y, i, j)
  {
    AddEdit(sub, before, x, y, i, j, LastEdit(sub, x, y, i, j));
  }

  /** A script for the shorter prefixes and one edit make a script for the longer ones. */
  lemma AddEdit(sub: Sub, script: seq<Edit>, x: string, y: string, i: nat, j: nat, e: Edit)
    requires i <= |x| && j <= |y|
    requires match e
             case Delete => i > 0 && Transforms(script, x[..i - 1], y[..j])
             case Insert(c) => j > 0 && c == y[j - 1] && Transforms(script, x[..i], y[..j - 1])
             case Substitute(c) => i > 0 && j > 0 && c == y[j - 1] && Transforms(script, x[..i - 1], y[..j - 1])
    ensures Transforms(script + [e], x[..i], y[..j])
    ensures Cost(sub, script + [e], x[..i])
         == match e
            case Delete => Cost(sub, script, x[..i - 1]) + 1.0
            case Insert(_) => Cost(sub, script, x[..i]) + 1.0
            case Substitute(c) => Cost(sub, script, x[..i - 1]) + sub(x[i - 1], c)
  {
    assert (script + [e])[..|script|] == script;
    assert i > 0 ==> x[..i][..i - 1] == x[..i - 1] && x[..i][i - 1] == x[i - 1];
    assert j > 0 ==> y[..j][..j - 1] == y[..j - 1] && y[..j][j - 1] == y[j - 1];
  }

  /** No script that turns one prefix into the other is cheaper. */
  lemma {:induction false} NoScriptIsCheaper(sub: Sub, script: seq<Edit>, x: string, y: string, i: nat, j: nat)
    requires i <= |x| && j <= |y| && Transforms(script, x[..i], y[..j])
    ensures Cost(sub, script, x[..i]) >= Table(sub, x, y, i, j)
    decreases script
  {
    assert i > 0 ==> x[..i][..i - 1] == x[..i - 1];
    assert j > 0 ==> y[..j][..j - 1] == y[..j - 1];
    if script != [] {
      var rest, e := script[..|script| - 1], script[|script| - 1];
      match e
      case Insert(c) => NoScriptIsCheaper(sub, rest, x, y, i, j - 1);
      case Delete => NoScriptIsCheaper(sub, rest, x, y, i - 1, j);
      case Substitute(c) => NoScriptIsCheaper(sub, rest, x, y, i - 1, j - 1);
    }
  }

  /** The distance is the minimum cost over all edit scripts: attained, and never beaten. */
  lemma DistanceIsMinimum(x: string, y: string)
    ensures exists best :: Transforms(best, x, y) && Cost(SubstitutionCost, best, x) == Distance(x, y)
    ensures forall script :: Transforms(script, x, y) ==> Cost(SubstitutionCost, script, x) >= Distance(x, y)
  {
    assert x[..|x|] == x && y[..|y|] == y;
    var best := CheapestScript(SubstitutionCost, x, y, |x|, |y|);
    assert Transforms(best, x, y);
    forall script | Transforms(script, x, y) ensures Cost(SubstitutionCost, script, x) >= Distance(x, y) {
      NoScriptIsCheaper(SubstitutionCost, script, x, y, |x|, |y|);
    }
  }

  // ---------------------------------------------------------------- what kind of distance it is

  lemma {:induction false} TableSymmetric(sub: Sub, x: string, y: string, i: nat, j: nat)
    requires IsPrice(sub) && i <= |x| && j <= |y|
    ensures Table(sub, x, y, i, j) == Table(sub, y, x, j, i)
    decreases i + j
  {
    if i > 0 && j > 0 {
      TableSymmetric(sub, x, y, i - 1, j);
      TableSymmetric(sub, x, y, i, j - 1);
      TableSymmetric(sub, x, y, i - 1, j - 1);
    }
  }

  lemma DistanceSymmetric(x: string, y: string)
    ensures Distance(x, y) == Distance(y, x)
  {
    TableSymmetric(SubstitutionCost, x, y, |x|, |y|);
  }

  lemma {:induction false} TableAboveGap(sub: Sub, x: string, y: string, i: nat, j: nat)
    requires IsPrice(sub) && i <= |x| && j <= |y|
    ensures Table(sub, x, y, i, j) >= (i - j) as real && Table(sub, x, y, i, j) >= (j - i) as real
    decreases i + j
  {
    if i > 0 && j > 0 {
      TableAboveGap(sub, x, y, i - 1, j);
      TableAboveGap(sub, x, y, i, j - 1);
      TableAboveGap(sub, x, y, i - 1, j - 1);
    }
  }

  lemma {:induction false} TableZero(sub: Sub, x: string, y: string, i: nat, j: nat)
    requires IsPrice(sub) && i <= |x| && j <= |y| && Table(sub, x, y, i, j) == 0.0
    ensures x[..i] == y[..j]
    decreases i + j
  {
    TableAboveGap(sub, x, y, i, j);
    if i > 0 && j > 0 {
      ZeroComesFromDiagonal(sub, x, y, i, j);
      TableZero(sub, x, y, i - 1, j - 1);
      assert x[..i] == x[..i - 1] + [x[i - 1]] && y[..j] == y[..j - 1] + [y[j - 1]];
    }
  }

  lemma ZeroComesFromDiagonal(sub: Sub, x: string, y: string, i: nat, j: nat)
    requires IsPrice(sub) && 0 < i <= |x| && 0 < j <= |y| && Table(sub, x, y, i, j) == 0.0
    ensures Table(sub, x, y, i - 1, j - 1) == 0.0 && x[i - 1] == y[j - 1]
  {
    TableNonNegative(sub, x, y, i - 1, j);
    TableNonNegative(sub, x, y, i, j - 1);
    TableNonNegative(sub, x, y, i - 1, j - 1);
  }

  lemma TableNonNegative(sub: Sub, x: string, y: string, i: nat, j: nat)
    requires IsPrice(sub) && i <= |x| && j <= |y|
    ensures Table(sub, x, y, i, j) >= 0.0
  {
    TableAboveGap(sub, x, y, i, j);
    assert (i - j) as real == -((j - i) as real);
  }

  lemma {:induction false} TableDiagonal(sub: Sub, x: string, i: nat)
    requires IsPrice(sub) && i <= |x|
    ensures Table(sub, x, x, i, i) == 0.0
  {
    TableNonNegative(sub, x, x, i, i);
    if i > 0 {
      TableDiagonal(sub, x, i - 1);
    }
  }

  /** At least the difference in length, and zero exactly between equal texts. */
  lemma DistanceSeparates(x: string, y: string)
    ensures Distance(x, y) >= (if |x| >= |y| then |x| - |y| else |y| - |x|) as real
    ensures Distance(x, y) == 0.0 <==> x == y
  {
    TableAboveGap(SubstitutionCost, x, y, |x|, |y|);
    assert x[..|x|] == x && y[..|y|] == y;
    if Distance(x, y) == 0.0 { TableZero(SubstitutionCost, x, y, |x|, |y|); }
    if x == y { TableDiagonal(SubstitutionCost, x, |x|); }
  }

  /** Sum of the substitution costs, position by position. */
  ghost function PositionalCost(sub: Sub, x: string, y: string, n: nat): real
    requires n <= |x| && n <= |y|
  {
    if n == 0 then 0.0 else PositionalCost(sub, x, y, n - 1) + sub(x[n - 1], y[n - 1])
  }

  lemma {:induction false} TableBelowPositional(sub: Sub, x: string, y: string, n: nat)
    requires n <= |x| && n <= |y|
    ensures Table(sub, x, y, n, n) <= PositionalCost(sub, x, y, n)
  {
    if n > 0 {
      TableBelowPositional(sub, x, y, n - 1);
    }
  }

  lemma DistanceBelowPositional(x: string, y: string)
    requires |x| == |y|
    ensures Distance(x, y) <= PositionalCost(SubstitutionCost, x, y, |x|)
  {
    TableBelowPositional(SubstitutionCost, x, y, |x|);
  }

  // ---------------------------------------------------------------- equal lengths

  /** For texts of one length the cheapest script either substitutes position by position or costs at least two. */
  lemma {:induction false} TableAboveCapped(sub: Sub, x: string, y: string, n: nat)
    requires IsPrice(sub) && n <= |x| && n <= |y|
    ensures Table(sub, x, y, n, n) >= Min(PositionalCost(sub, x, y, n), 2.0)
  {
    if n > 0 {
      TableAboveCapped(sub, x, y, n - 1);
      TableAboveGap(sub, x, y, n - 1, n);
      TableAboveGap(sub, x, y, n, n - 1);
    }
  }

  /** So the distance is the positional cost whenever that is at most two. */
  lemma DistanceIsPositional(x: string, y: string)
    requires |x| == |y| && PositionalCost(SubstitutionCost, x, y, |x|) <= 2.0
    ensures Distance(x, y) == PositionalCost(SubstitutionCost, x, y, |x|)
  {
    TableAboveCapped(SubstitutionCost, x, y, |x|);
    DistanceBelowPositional(x, y);
  }

  lemma {:induction false} OneDifference(sub: Sub, x: string, pos: nat, a: char, b: char, n: nat)
    requires IsPrice(sub) && pos < |x| && n <= |x|
    ensures PositionalCost(sub, x[pos := a], x[pos := b], n) == if pos < n then sub(a, b) else 0.0
  {
    if n > 0 { OneDifference(sub, x, pos, a, b, n - 1); }
  }

  /** Texts that differ in one character are as far apart as the two characters. */
  lemma OneCharacterApart(x: string, pos: nat, a: char, b: char)
    requires pos < |x|
    ensures Distance(x[pos := a], x[pos := b]) == SubstitutionCost(a, b)
  {
    OneDifference(SubstitutionCost, x, pos, a, b, |x|);
    DistanceIsPositional(x[pos := a], x[pos := b]);
  }

  // ---------------------------------------------------------------- the triangle inequality

  /** Going from `a` to `c` by `b` is no cheaper than going directly. */
  ghost predicate Direct(sub: Sub, a: char, b: char, c: char) { sub(a, c) <= sub(a, b) + sub(b, c) }

  ghost predicate DirectBetween(sub: Sub, x: string, y: string, z: string) {
    forall i, j, k :: 0 <= i < |x| && 0 <= j < |y| && 0 <= k < |z| ==> Direct(sub, x[i], y[j], z[k])
  }

  /** The inequality for the first characters of three texts. */
  ghost predicate Triangle(sub: Sub, x: string, y: string, z: string, i: nat, j: nat, k: nat)
    requires i <= |x| && j <= |y| && k <= |z|
  {
    Table(sub, x, z, i, k) <= Table(sub, x, y, i, j) + Table(sub, y, z, j, k)
  }

  /** Which neighbour a cell comes from: the row above, the column before, or the diagonal. */
  datatype Origin = Up | Left | Diagonal

  ghost function OriginOf(sub: Sub, x: string, y: string, i: nat, j: nat): (o: Origin)
    requires 0 < i <= |x| && 0 < j <= |y|
    ensures Table(sub, x, y, i, j)
      == match o
         case Up => Table(sub, x, y, i - 1, j) + 1.0
         case Left => Table(sub, x, y, i, j - 1) + 1.0
         case Diagonal => Table(sub, x, y, i - 1, j - 1) + sub(x[i - 1], y[j - 1])
  {
    if Table(sub, x, y, i, j) == Table(sub, x, y, i - 1, j) + 1.0 then Up
    else if Table(sub, x, y, i, j) == Table(sub, x, y, i, j - 1) + 1.0 then Left
    else Diagonal
  }

  lemma {:induction false} TriangleHolds(sub: Sub, x: string, y: string, z: string, i: nat, j: nat, k: nat)
    requires IsPrice(sub) && DirectBetween(sub, x, y, z) && i <= |x| && j <= |y| && k <= |z|
    ensures Triangle(sub, x, y, z, i, j, k)
    decreases i + j + k
  {
    if i == 0 || k == 0 {
      TriangleEdge(sub, x, y, z, i, j, k);
    } else if j == 0 {
      TriangleHolds(sub, x, y, z, i - 1, j, k);
    } else {
      var before := Smaller(OriginOf(sub, x, y, i, j), OriginOf(sub, y, z, j, k), i, j, k);
      TriangleHolds(sub, x, y, z, before.0, before.1, before.2);
    }
  }

  /** The smaller instance that settles a cell, by where the two legs come from. */
  function Smaller(first: Origin, second: Origin, i: nat, j: nat, k: nat): (r: (nat, nat, nat))
    requires i > 0 && j > 0 && k > 0
    ensures r.0 <= i && r.1 <= j && r.2 <= k && r.0 + r.1 + r.2 < i + j + k
  {
    if first.Up? then (i - 1, j, k)
    else if second.Left? then (i, j, k - 1)
    else (if first.Left? then i else i - 1, j - 1, if second.Up? then k else k - 1)
  }

  lemma TriangleEdge(sub: Sub, x: string, y: string, z: string, i: nat, j: nat, k: nat)
    requires IsPrice(sub) && i <= |x| && j <= |y| && k <= |z| && (i == 0 || k == 0)
    ensures Triangle(sub, x, y, z, i, j, k)
  {
    TableAboveGap(sub, x, y, i, j);
    TableAboveGap(sub, y, z, j, k);
  }

  ghost predicate AlwaysDirect(sub: Sub) { forall a, b, c :: Direct(sub, a, b, c) }

  ghost predicate AlwaysTriangle(sub: Sub) { forall x, y, z :: Triangle(sub, x, y, z, |x|, |y|, |z|) }

  /** For any price of substitutions the distance satisfies the triangle inequality exactly if the price does. */
  lemma TriangleIffDirect(sub: Sub)
    requires IsPrice(sub)
    ensures AlwaysTriangle(sub) <==> AlwaysDirect(sub)
  {
    if AlwaysDirect(sub) {
      forall x, y, z ensures Triangle(sub, x, y, z, |x|, |y|, |z|) { TriangleHolds(sub, x, y, z, |x|, |y|, |z|); }
    }
    if AlwaysTriangle(sub) { DirectFromTriangle(sub); }
  }

  lemma DirectFromTriangle(sub: Sub)
    requires IsPrice(sub) && AlwaysTriangle(sub)
    ensures AlwaysDirect(sub)
  {
    forall a, b, c ensures Direct(sub, a, b, c) {
      assert Triangle(sub, [a], [b], [c], |[a]|, |[b]|, |[c]|);
      DirectAtSingle(sub, a, b, c);
    }
  }

  lemma DirectAtSingle(sub: Sub, a: char, b: char, c: char)
    requires IsPrice(sub) && Triangle(sub, [a], [b], [c], 1, 1, 1)
    ensures Direct(sub, a, b, c)
  {
    SingleCharacters(sub, a, b);
    SingleCharacters(sub, b, c);
    SingleCharacters(sub, a, c);
  }

  lemma SingleCharacters(sub: Sub, a: char, b: char)
    requires IsPrice(sub)
    ensures Table(sub, [a], [b], 1, 1) == sub(a, b)
  {
    assert Table(sub, [a], [b], 0, 1) == 1.0 && Table(sub, [a], [b], 1, 0) == 1.0 && Table(sub, [a], [b], 0, 0) == 0.0;
  }

  /** A chain of confusions whose ends are not confused themselves. */
  predicate BrokenChain(a: char, b: char, c: char) {
    Confusable(a, b) && Confusable(b, c) && a != c && !Confusable(a, c)
  }

  /** The code's price fails exactly at such chains. */
  lemma DirectUnlessBroken(a: char, b: char, c: char)
    ensures Direct(SubstitutionCost, a, b, c) <==> !BrokenChain(a, b, c)
  {
  }

  ghost predicate NoBrokenChain(x: string, y: string, z: string) {
    forall i, j, k :: 0 <= i < |x| && 0 <= j < |y| && 0 <= k < |z| ==> !BrokenChain(x[i], y[j], z[k])
  }

  /** The inequality holds between any three texts whose characters form no such chain. */
  lemma TriangleUnlessBroken(x: string, y: string, z: string)
    requires NoBrokenChain(x, y, z)
    ensures Distance(x, z) <= Distance(x, y) + Distance(y, z)
  {
    forall i, j, k | 0 <= i < |x| && 0 <= j < |y| && 0 <= k < |z| ensures Direct(SubstitutionCost, x[i], y[j], z[k]) {
      DirectUnlessBroken(x[i], y[j], z[k]);
    }
    TriangleHolds(SubstitutionCost, x, y, z, |x|, |y|, |z|);
  }

  /** And between texts that differ in one character it fails exactly at such a chain. */
  lemma TriangleAtOneCharacter(x: string, pos: nat, a: char, b: char, c: char)
    requires pos < |x|
    ensures var p, q, r := x[pos := a], x[pos := b], x[pos := c];
      Distance(p, r) <= Distance(p, q) + Distance(q, r) <==> !BrokenChain(a, b, c)
  {
    OneCharacterApart(x, pos, a, b);
    OneCharacterApart(x, pos, b, c);
    OneCharacterApart(x, pos, a, c);
    DirectUnlessBroken(a, b, c);
  }

  /** Every canonical plate, standard or of a free zone, has neighbours that break it: put a 4, a 6 and a 9 at any of
      its digits. */
  lemma NoTriangle(plate: string, pos: nat)
    requires PlateGrammar.IsCanonical(plate) && pos < |plate| && PlateGrammar.IsDigit(plate[pos])
    ensures var p, q, r := plate[pos := '4'], plate[pos := '6'], plate[pos := '9'];
      && PlateGrammar.IsCanonical(p) && PlateGrammar.IsCanonical(q) && PlateGrammar.IsCanonical(r)
      && Distance(p, r) > Distance(p, q) + Distance(q, r)
  {
    PlateGrammar.DigitsAreFree(plate, pos, '4');
    PlateGrammar.DigitsAreFree(plate, pos, '6');
    PlateGrammar.DigitsAreFree(plate, pos, '9');
    FourSixNine();
    TriangleAtOneCharacter(plate, pos, '4', '6', '9');
  }

  lemma FourSixNine()
    ensures BrokenChain('4', '6', '9')
  {
    assert '4' in CONFUSABLE[10] && '6' in CONFUSABLE[10];
    assert '6' in CONFUSABLE[13] && '9' in CONFUSABLE[13];
  }
}
