/**
 The spelling suggestions for unknown cloud properties: a one-column dynamic
 program for the edit distance and a nearest-key search on top of it.
 */
module EditDistance {

  /** The three-way minimum of the original, branch for branch. */
  function Min(a: int, b: int, c: int): (m: int)
    ensures m <= a && m <= b && m <= c && (m == a || m == b || m == c)
  {
    if a < b then
      if a < c then a else c
    else
      if b < c then b else c
  }

  function Cost(a: char, b: char): nat { if a != b then 1 else 0 }

  function Front(s: string): string
    requires s != []
  {
    s[..|s| - 1]
  }

  function Last(s: string): char
    requires s != []
  {
    s[|s| - 1]
  }

  /** The recursive edit distance. */
  function Lev(s: string, t: string): nat
    decreases |s| + |t|
  {
    if s == [] then |t|
    else if t == [] then |s|
    else Min(Lev(Front(s), t) + 1, Lev(s, Front(t)) + 1, Lev(Front(s), Front(t)) + Cost(Last(s), Last(t)))
  }

  // ---------------------------------------------------------------------
  // The one-column program

  /** One table entry, from its three neighbours. */
  lemma Entry(s1: string, k: nat, t: string, c: char, value: int, left: int, up: int, diag: int)
    requires k < |s1| && left == Lev(s1[..k], t + [c]) && up == Lev(s1[..k + 1], t) && diag == Lev(s1[..k], t)
    requires value == Min(up + 1, left + 1, diag + Cost(s1[k], c))
    ensures value == Lev(s1[..k + 1], t + [c])
  {
    var s := s1[..k + 1];
    assert Front(s) == s1[..k] && Last(s) == s1[k];
    assert Front(t + [c]) == t && Last(t + [c]) == c;
  }

  /** `next` is the column after `prev` when character `c` of the second string is added. */
  ghost predicate Follows(s1: string, c: char, prev: seq<int>, next: seq<int>) {
    && |prev| == |next| == |s1| + 1
    && next[0] == prev[0] + 1
    && (forall k {:trigger s1[k]} :: 0 <= k < |s1| ==>
          next[k + 1] == Min(prev[k + 1] + 1, next[k] + 1, prev[k] + Cost(s1[k], c)))
  }

  ghost predicate IsColumn(column: seq<int>, s1: string, t: string) {
    |column| == |s1| + 1 && forall y :: 0 <= y < |column| ==> column[y] == Lev(s1[..y], t)
  }

  lemma {:induction false} EntryAdvances(prev: seq<int>, next: seq<int>, s1: string, t: string, c: char, y: nat)
    requires IsColumn(prev, s1, t) && Follows(s1, c, prev, next) && y <= |s1|
    ensures next[y] == Lev(s1[..y], t + [c])
  {
    if y == 0 {
      FirstEntry(prev[0], t, c);
    } else {
      var k := y - 1;
      EntryAdvances(prev, next, s1, t, c, k);
      assert next[k + 1] == Min(prev[k + 1] + 1, next[k] + 1, prev[k] + Cost(s1[k], c));
      Entry(s1, k, t, c, next[k + 1], next[k], prev[k + 1], prev[k]);
    }
  }

  lemma FirstEntry(above: int, t: string, c: char)
    requires above == Lev([], t)
    ensures above + 1 == Lev([], t + [c])
  {
  }

  lemma ColumnAdvances(prev: seq<int>, next: seq<int>, s1: string, t: string, c: char)
    requires IsColumn(prev, s1, t) && Follows(s1, c, prev, next)
    ensures IsColumn(next, s1, t + [c])
  {
    forall y | 0 <= y < |next| ensures next[y] == Lev(s1[..y], t + [c]) {
      EntryAdvances(prev, next, s1, t, c, y);
    }
  }

  /** One pass over the column, in place. */
  method NextColumn(column: array<int>, s1: string, s2: string, x: nat)
    requires column.Length == |s1| + 1 && 0 < x <= |s2| && column[0] == x - 1
    modifies column
    ensures Follows(s1, s2[x - 1], old(column[..]), column[..])
  {
    ghost var prev := column[..];
    column[0] := x;
    var lastdiag := x - 1;
    for y := 1 to |s1| + 1
      invariant column[0] == x && lastdiag == prev[y - 1]
      invariant forall k {:trigger s1[k]} :: 0 <= k < y - 1 ==>
                  column[k + 1] == Min(prev[k + 1] + 1, column[k] + 1, prev[k] + Cost(s1[k], s2[x - 1]))
      invariant forall k :: y <= k <= |s1| ==> column[k] == prev[k]
    {
      var olddiag := column[y];
      var cost := 0;
      if s1[y - 1] != s2[x - 1] {
        cost := 1;
      }
      column[y] := Min(column[y] + 1, column[y - 1] + 1, lastdiag + cost);
      lastdiag := olddiag;
    }
  }

  /** The one-column table computes the recursive distance. */
  method Distance(s1: string, s2: string) returns (d: int)
    ensures d == Lev(s1, s2)
  {
    var column := new int[|s1| + 1];
    column[0] := 0;
    for y := 1 to |s1| + 1
      invariant forall k :: 0 <= k < y ==> column[k] == k
    {
      column[y] := y;
    }
    for x := 1 to |s2| + 1
      invariant IsColumn(column[..], s1, s2[..x - 1])
    {
      ghost var prev := column[..];
      assert prev[0] == Lev(s1[..0], s2[..x - 1]);
      NextColumn(column, s1, s2, x);
      assert s2[..x] == s2[..x - 1] + [s2[x - 1]];
      ColumnAdvances(prev, column[..], s1, s2[..x - 1], s2[x - 1]);
    }
    d := column[|s1|];
    assert s1[..|s1|] == s1 && s2[..|s2|] == s2;
    assert d == column[..][|s1|];
  }

  // ---------------------------------------------------------------------
  // The metric laws

  lemma {:induction false} LevSelf(s: string)
    ensures Lev(s, s) == 0
    decreases |s|
  {
    if s != [] { LevSelf(Front(s)); }
  }

  /** Distance zero is equality. */
  lemma {:induction false} LevZeroIffEqual(s: string, t: string)
    ensures Lev(s, t) == 0 <==> s == t
    decreases |s| + |t|
  {
    LevSelf(s);
    if s != [] && t != [] && Lev(s, t) == 0 {
      LevZeroIffEqual(Front(s), Front(t));
      assert s == Front(s) + [Last(s)] && t == Front(t) + [Last(t)];
    }
  }

  lemma {:induction false} LevSymmetric(s: string, t: string)
    ensures Lev(s, t) == Lev(t, s)
    decreases |s| + |t|
  {
    if s != [] && t != [] {
      LevSymmetric(Front(s), t);
      LevSymmetric(s, Front(t));
      LevSymmetric(Front(s), Front(t));
    }
  }

  /** The distance lies between the length difference and the longer length. */
  lemma {:induction false} LevBounds(s: string, t: string)
    ensures |s| - |t| <= Lev(s, t) && |t| - |s| <= Lev(s, t)
    ensures Lev(s, t) <= if |s| < |t| then |t| else |s|
    decreases |s| + |t|
  {
    if s != [] && t != [] {
      LevBounds(Front(s), t);
      LevBounds(s, Front(t));
      LevBounds(Front(s), Front(t));
    }
  }

  lemma {:induction false} LevTriangle(s: string, t: string, u: string)
    ensures Lev(s, u) <= Lev(s, t) + Lev(t, u)
    decreases |s| + |t| + |u|
  {
    if s == [] || t == [] || u == [] {
      LevBounds(s, t);
      LevBounds(t, u);
      LevBounds(s, u);
    } else if Lev(s, t) == Lev(Front(s), t) + 1 {
      LevTriangle(Front(s), t, u);
    } else if Lev(t, u) == Lev(t, Front(u)) + 1 {
      LevTriangle(s, t, Front(u));
    } else {
      TriangleInner(s, t, u);
    }
  }

  /** The cases in which both distances end by consuming the last character of `t`. */
  lemma {:induction false} TriangleInner(s: string, t: string, u: string)
    requires s != [] && t != [] && u != []
    requires Lev(s, t) != Lev(Front(s), t) + 1 && Lev(t, u) != Lev(t, Front(u)) + 1
    ensures Lev(s, u) <= Lev(s, t) + Lev(t, u)
    decreases |s| + |t| + |u|, 0
  {
    var insert := Lev(s, t) == Lev(s, Front(t)) + 1;
    var delete := Lev(t, u) == Lev(Front(t), u) + 1;
    if insert && delete {
      LevTriangle(s, Front(t), u);
    } else if insert {
      LevTriangle(s, Front(t), Front(u));
    } else if delete {
      LevTriangle(Front(s), Front(t), u);
    } else {
      LevTriangle(Front(s), Front(t), Front(u));
    }
  }

  // ---------------------------------------------------------------------
  // Edit scripts

  /** One edit of a single character at a position. */
  datatype Edit = Insert(at: nat, c: char) | Delete(at: nat) | Substitute(at: nat, c: char)

  predicate Fits(e: Edit, s: string) {
    if e.Insert? then e.at <= |s| else e.at < |s|
  }

  function Edited(s: string, e: Edit): string
    requires Fits(e, s)
  {
    match e
    case Insert(i, c) => s[..i] + [c] + s[i..]
    case Delete(i) => s[..i] + s[i + 1..]
    case Substitute(i, c) => s[..i] + [c] + s[i + 1..]
  }

  /** Whether the edits of `script`, applied in turn, turn `s` into `t`. */
  predicate Turns(script: seq<Edit>, s: string, t: string)
    decreases |script|
  {
    if script == [] then s == t
    else Fits(script[0], s) && Turns(script[1..], Edited(s, script[0]), t)
  }

  /** Appending one character to both strings, or to one of them. */
  lemma Snoc(s: string, s': string, t: string, t': string)
    requires s' != [] && t' != [] && s == Front(s') && t == Front(t')
    ensures Lev(s', t') <= Lev(s, t) + Cost(Last(s'), Last(t'))
  {
  }

  lemma SnocOne(s: string, s': string, t: string)
    requires s' != [] && s == Front(s')
    ensures Lev(s', t) <= Lev(s, t) + 1
  {
    LevBounds(s, t);
  }

  lemma AppendSnoc(s: string, tail: string)
    requires tail != []
    ensures s + tail != [] && Front(s + tail) == s + Front(tail) && Last(s + tail) == Last(tail)
  {
  }

  /** Appending the same suffix to both strings does not raise the distance. */
  lemma {:induction false} LevAppend(s: string, t: string, tail: string)
    ensures Lev(s + tail, t + tail) <= Lev(s, t)
    decreases |tail|
  {
    if tail == [] {
      assert s + tail == s && t + tail == t;
    } else {
      LevAppend(s, t, Front(tail));
      AppendSnoc(s, tail);
      AppendSnoc(t, tail);
      Snoc(s + Front(tail), s + tail, t + Front(tail), t + tail);
    }
  }

  /** Two strings that agree but for at most one character at the end. */
  lemma EndChange(head: string, s: string, t: string)
    requires s == head || (s != [] && Front(s) == head)
    requires t == head || (t != [] && Front(t) == head)
    ensures Lev(s, t) <= 1
  {
    LevSelf(head);
    if s == head && t == head {
    } else if s == head {
      SnocOne(head, t, head);
      LevSymmetric(head, t);
    } else if t == head {
      SnocOne(head, s, head);
    } else {
      Snoc(head, s, head, t);
    }
  }

  /** An edit leaves a head and a tail alone and changes at most one character between them. */
  lemma SplitAtEdit(s: string, e: Edit) returns (head: string, a: string, b: string, tail: string)
    requires Fits(e, s)
    ensures a == head || (a != [] && Front(a) == head)
    ensures b == head || (b != [] && Front(b) == head)
    ensures s == a + tail && Edited(s, e) == b + tail
  {
    head, tail := s[..e.at], s[if e.Insert? then e.at else e.at + 1..];
    a := if e.Insert? then head else head + [s[e.at]];
    b := if e.Delete? then head else head + [e.c];
  }

  /** One edit moves a string by at most one. */
  lemma EditMovesByOne(s: string, e: Edit)
    requires Fits(e, s)
    ensures Lev(s, Edited(s, e)) <= 1
  {
    var head, a, b, tail := SplitAtEdit(s, e);
    EndChange(head, a, b);
    LevAppend(a, b, tail);
  }

  /** No script of insertions, deletions and substitutions beats the distance. */
  lemma {:induction false} NoScriptBeatsLev(script: seq<Edit>, s: string, t: string)
    requires Turns(script, s, t)
    ensures Lev(s, t) <= |script|
    decreases |script|
  {
    if script == [] {
      LevSelf(s);
    } else {
      var s' := Edited(s, script[0]);
      NoScriptBeatsLev(script[1..], s', t);
      EditMovesByOne(s, script[0]);
      LevTriangle(s, s', t);
    }
  }

  lemma EditedAppend(s: string, e: Edit, tail: string)
    requires Fits(e, s)
    ensures Fits(e, s + tail) && Edited(s + tail, e) == Edited(s, e) + tail
  {
    assert (s + tail)[..e.at] == s[..e.at];
    if e.Insert? {
      assert (s + tail)[e.at..] == s[e.at..] + tail;
    } else {
      assert (s + tail)[e.at + 1..] == s[e.at + 1..] + tail;
    }
  }

  /** A script also works in front of any untouched suffix. */
  lemma {:induction false} TurnsAppend(script: seq<Edit>, s: string, t: string, tail: string)
    requires Turns(script, s, t)
    ensures Turns(script, s + tail, t + tail)
    decreases |script|
  {
    if script != [] {
      EditedAppend(s, script[0], tail);
      TurnsAppend(script[1..], Edited(s, script[0]), t, tail);
    }
  }

  lemma Prepend(e: Edit, rest: seq<Edit>, s: string, s': string, t: string)
    requires Fits(e, s) && Edited(s, e) == s' && Turns(rest, s', t)
    ensures Turns([e] + rest, s, t)
  {
    assert ([e] + rest)[1..] == rest;
  }

  lemma DeleteLast(rest: seq<Edit>, s: string, c: char, t: string)
    requires Turns(rest, s, t)
    ensures Turns([Delete(|s|)] + rest, s + [c], t)
  {
    Prepend(Delete(|s|), rest, s + [c], s, t);
  }

  lemma InsertLast(rest: seq<Edit>, s: string, t: string, c: char)
    requires Turns(rest, s, t)
    ensures Turns([Insert(|s|, c)] + rest, s, t + [c])
  {
    TurnsAppend(rest, s, t, [c]);
    Prepend(Insert(|s|, c), rest, s, s + [c], t + [c]);
  }

  /** Match the last characters, or substitute one for the other. */
  lemma PairLast(rest: seq<Edit>, s: string, a: char, t: string, b: char) returns (script: seq<Edit>)
    requires Turns(rest, s, t)
    ensures Turns(script, s + [a], t + [b]) && |script| == |rest| + Cost(a, b)
  {
    TurnsAppend(rest, s, t, [b]);
    if a == b {
      script := rest;
    } else {
      Prepend(Substitute(|s|, b), rest, s + [a], s + [b], t + [b]);
      script := [Substitute(|s|, b)] + rest;
    }
  }

  /** Some script attains the distance. */
  lemma {:induction false} SomeScriptAttainsLev(s: string, t: string) returns (script: seq<Edit>)
    ensures Turns(script, s, t) && |script| == Lev(s, t)
    decreases |s| + |t|
  {
    assert s != [] ==> s == Front(s) + [Last(s)];
    assert t != [] ==> t == Front(t) + [Last(t)];
    if s == [] && t == [] {
      script := [];
    } else if s != [] && Lev(s, t) == Lev(Front(s), t) + 1 {
      var rest := SomeScriptAttainsLev(Front(s), t);
      DeleteLast(rest, Front(s), Last(s), t);
      script := [Delete(|s| - 1)] + rest;
    } else if t != [] && Lev(s, t) == Lev(s, Front(t)) + 1 {
      var rest := SomeScriptAttainsLev(s, Front(t));
      InsertLast(rest, s, Front(t), Last(t));
      script := [Insert(|s|, Last(t))] + rest;
    } else {
      var rest := SomeScriptAttainsLev(Front(s), Front(t));
      script := PairLast(rest, Front(s), Last(s), Front(t), Last(t));
    }
  }

  /** `d` is the least length of a script turning `s` into `t`. */
  ghost predicate LeastScriptLength(s: string, t: string, d: nat) {
    && (exists script :: Turns(script, s, t) && |script| == d)
    && (forall script :: Turns(script, s, t) ==> d <= |script|)
  }

  /** The distance is the least number of insertions, deletions and substitutions:
      some script attains it and none beats it. */
  lemma DistanceIsLeastScript(s: string, t: string, d: nat)
    ensures LeastScriptLength(s, t, d) <==> d == Lev(s, t)
  {
    var best := SomeScriptAttainsLev(s, t);
    forall script | Turns(script, s, t) ensures Lev(s, t) <= |script| { NoScriptBeatsLev(script, s, t); }
  }

  // ---------------------------------------------------------------------
  // Suggestions

  /** Only keys closer than this are suggested. */
  const MIN_EDITING_DISTANCE := 5

  /** Key `k` is close enough, none is nearer, and none before it is as near. */
  ghost predicate FirstNearest(k: nat, invalid: string, valid: seq<string>) {
    && k < |valid| && Lev(invalid, valid[k]) < MIN_EDITING_DISTANCE
    && (forall j :: 0 <= j < |valid| ==> Lev(invalid, valid[k]) <= Lev(invalid, valid[j]))
    && (forall j :: 0 <= j < k ==> Lev(invalid, valid[k]) < Lev(invalid, valid[j]))
  }

  predicate SomeClose(invalid: string, valid: seq<string>) {
    exists v :: v in valid && Lev(invalid, v) < MIN_EDITING_DISTANCE
  }

  /** What the search promises: the first of the nearest valid keys if one is close
      enough, else the empty string. */
  ghost predicate Suggests(best: string, invalid: string, valid: seq<string>) {
    if SomeClose(invalid, valid) then exists k: nat :: FirstNearest(k, invalid, valid) && best == valid[k]
    else best == ""
  }

  method Suggest(invalid: string, valid: seq<string>) returns (best: string)
    ensures Suggests(best, invalid, valid)
  {
    best := "";
    var editingDistance := MIN_EDITING_DISTANCE;
    ghost var at := 0;
    for k := 0 to |valid|
      invariant editingDistance <= MIN_EDITING_DISTANCE
      invariant editingDistance == MIN_EDITING_DISTANCE ==> best == ""
      invariant editingDistance < MIN_EDITING_DISTANCE ==>
                  at < k && best == valid[at] && Lev(invalid, best) == editingDistance
      invariant forall j :: 0 <= j < k ==> editingDistance <= Lev(invalid, valid[j])
      invariant at <= k && forall j :: 0 <= j < at ==> editingDistance < Lev(invalid, valid[j])
    {
      var dist := Distance(invalid, valid[k]);
      if dist < editingDistance && dist < MIN_EDITING_DISTANCE {
        editingDistance := dist;
        best := valid[k];
        at := k;
      }
    }
    Found(invalid, valid, at, best, editingDistance);
  }

  lemma Found(invalid: string, valid: seq<string>, at: nat, best: string, d: int)
    requires d <= MIN_EDITING_DISTANCE && (d == MIN_EDITING_DISTANCE ==> best == "")
    requires d < MIN_EDITING_DISTANCE ==> at < |valid| && best == valid[at] && Lev(invalid, best) == d
    requires at <= |valid| && forall j :: 0 <= j < at ==> d < Lev(invalid, valid[j])
    requires forall j :: 0 <= j < |valid| ==> d <= Lev(invalid, valid[j])
    ensures Suggests(best, invalid, valid)
  {
    if d < MIN_EDITING_DISTANCE {
      assert best in valid && FirstNearest(at, invalid, valid);
    }
  }

  /** One suggestion for every invalid property reported. */
  method SuggestAll(invalid: seq<string>, valid: seq<string>) returns (suggestions: map<string, string>)
    ensures suggestions.Keys == set p | p in invalid
    ensures forall p :: p in suggestions ==> Suggests(suggestions[p], p, valid)
  {
    suggestions := map[];
    for i := 0 to |invalid|
      invariant suggestions.Keys == set p | p in invalid[..i]
      invariant forall p :: p in suggestions ==> Suggests(suggestions[p], p, valid)
    {
      var best := Suggest(invalid[i], valid);
      suggestions := suggestions[invalid[i] := best];
    }
    assert invalid[..|invalid|] == invalid;
  }

  /** No other key is as near as the suggested one. */
  predicate OnlyNearest(best: string, invalid: string, valid: seq<string>) {
    forall v :: v in valid && Lev(invalid, v) == Lev(invalid, best) ==> v == best
  }

  lemma {:induction false} Nearest(best: string, invalid: string, valid: seq<string>, v: string)
    requires Suggests(best, invalid, valid) && SomeClose(invalid, valid) && v in valid
    ensures best in valid && Lev(invalid, best) <= Lev(invalid, v)
  {
    var k: nat :| FirstNearest(k, invalid, valid) && best == valid[k];
    var j :| 0 <= j < |valid| && valid[j] == v;
  }

  /** Whatever order the keys come in, the suggestion is equally near. */
  lemma EquallyNear(b1: string, v1: seq<string>, b2: string, v2: seq<string>, invalid: string)
    requires multiset(v1) == multiset(v2) && Suggests(b1, invalid, v1) && Suggests(b2, invalid, v2)
    ensures Lev(invalid, b1) == Lev(invalid, b2) && SomeClose(invalid, v1) == SomeClose(invalid, v2)
    ensures SomeClose(invalid, v1) ==> b2 in v1
  {
    assert forall v :: v in v1 <==> v in multiset(v1);
    assert forall v :: v in v2 <==> v in multiset(v2);
    if SomeClose(invalid, v1) {
      var v :| v in v1 && Lev(invalid, v) < MIN_EDITING_DISTANCE;
      Nearest(b1, invalid, v1, v);
      Nearest(b2, invalid, v2, v);
      Nearest(b1, invalid, v1, b2);
      Nearest(b2, invalid, v2, b1);
    }
  }

  /** The keys come in random order. The suggestion is the same for every order exactly
      when no key is close enough or the nearest one is unique. */
  lemma SuggestionStableIff(b1: string, v1: seq<string>, invalid: string)
    requires Suggests(b1, invalid, v1)
    ensures (forall b2, v2 :: multiset(v2) == multiset(v1) && Suggests(b2, invalid, v2) ==> b2 == b1)
            <==> !SomeClose(invalid, v1) || OnlyNearest(b1, invalid, v1)
  {
    forall b2, v2 | multiset(v2) == multiset(v1) && Suggests(b2, invalid, v2)
      ensures !SomeClose(invalid, v1) || OnlyNearest(b1, invalid, v1) ==> b2 == b1
    {
      EquallyNear(b1, v1, b2, v2, invalid);
    }
    if SomeClose(invalid, v1) && !OnlyNearest(b1, invalid, v1) {
      var w :| w in v1 && Lev(invalid, w) == Lev(invalid, b1) && w != b1;
      var v2 := MovedToFront(b1, v1, invalid, w);
      assert Suggests(w, invalid, v2);
    }
  }

  /** Any nearest key is suggested when it comes first. */
  lemma MovedToFront(b1: string, v1: seq<string>, invalid: string, w: string) returns (v2: seq<string>)
    requires Suggests(b1, invalid, v1) && SomeClose(invalid, v1) && w in v1 && Lev(invalid, w) == Lev(invalid, b1)
    ensures multiset(v2) == multiset(v1) && Suggests(w, invalid, v2)
  {
    var i :| 0 <= i < |v1| && v1[i] == w;
    v2 := [w] + v1[..i] + v1[i + 1..];
    assert v1 == v1[..i] + [w] + v1[i + 1..];
    forall j | 0 <= j < |v2| ensures Lev(invalid, w) <= Lev(invalid, v2[j]) {
      assert v2[j] in v1;
      Nearest(b1, invalid, v1, v2[j]);
    }
    var v :| v in v1 && Lev(invalid, v) < MIN_EDITING_DISTANCE;
    Nearest(b1, invalid, v1, v);
    assert FirstNearest(0, invalid, v2) && v2[0] == w;
  }
}
