/** The two-dimensional Levenshtein recurrence on prefixes, and the proof that it is the
    least number of edits, hence a metric. */
module Levenshtein {
  import opened Basics
  import opened EditScripts

  function Init(w: string): string
    requires w != []
  {
    w[..|w| - 1]
  }

  function Last(w: string): char
    requires w != []
  {
    w[|w| - 1]
  }

  /** The textbook recurrence: remove, insert, or replace the last character
      (replacing it by itself is free). */
  function Lev(a: string, b: string): nat
    decreases |a| + |b|
  {
    if a == [] then |b|
    else if b == [] then |a|
    else Min(Min(Lev(Init(a), b), Lev(a, Init(b))) + 1,
             Lev(Init(a), Init(b)) + if Last(a) == Last(b) then 0 else 1)
  }

  // ----- neighbouring cells differ by at most one -----

  lemma {:induction false} NeighbourLeft(a: string, b: string)
    requires a != []
    ensures Lev(a, b) <= Lev(Init(a), b) + 1
    ensures Lev(Init(a), b) <= Lev(a, b) + 1
    decreases |a| + |b|
  {
    if b != [] {
      NeighbourLeft(a, Init(b));
    }
  }

  lemma {:induction false} Symmetric(a: string, b: string)
    ensures Lev(a, b) == Lev(b, a)
    decreases |a| + |b|
  {
    if a != [] && b != [] {
      Symmetric(Init(a), b);
      Symmetric(a, Init(b));
      Symmetric(Init(a), Init(b));
    }
  }

  lemma {:induction false} NeighbourRight(a: string, b: string)
    requires b != []
    ensures Lev(a, b) <= Lev(a, Init(b)) + 1
    ensures Lev(a, Init(b)) <= Lev(a, b) + 1
  {
    Symmetric(a, b);
    Symmetric(a, Init(b));
    NeighbourLeft(b, a);
  }

  /** On equal last characters the diagonal alone decides: the shortcut loses nothing. */
  lemma {:induction false} DiagonalShortcut(a: string, b: string)
    requires a != [] && b != [] && Last(a) == Last(b)
    ensures Lev(a, b) == Lev(Init(a), Init(b))
  {
    NeighbourLeft(a, Init(b));
    NeighbourRight(Init(a), b);
  }

  // ----- no script beats the recurrence -----

  lemma {:induction false} OneLastSpot(x: string, u: string, v: string, b: string)
    requires |u| <= 1 && |v| <= 1
    ensures Lev(x + u, b) <= Lev(x + v, b) + 1
    decreases |b|
  {
    var s, t := x + u, x + v;
    assert if u == [] then s == x else Init(s) == x;
    assert if v == [] then t == x else Init(t) == x;
    if u != [] { NeighbourLeft(s, b); }
    if v != [] { NeighbourLeft(t, b); }
    if b != [] {
      OneLastSpot(x, u, v, Init(b));
      NeighbourRight(x, b);
      NeighbourRight(s, b);
    }
  }

  /** Changing one spot of a word (each of `u`, `v` is empty or one character) changes the
      distance to any `b` by at most one. */
  lemma {:induction false} OneSpot(x: string, u: string, v: string, y: string, b: string)
    requires |u| <= 1 && |v| <= 1
    ensures Lev(x + u + y, b) <= Lev(x + v + y, b) + 1
    decreases |y| + |b|
  {
    var s, t := x + u + y, x + v + y;
    if y != [] {
      assert Init(s) == x + u + Init(y) && Init(t) == x + v + Init(y);
      OneSpot(x, u, v, Init(y), b);
      if b != [] {
        OneSpot(x, u, v, y, Init(b));
        OneSpot(x, u, v, Init(y), Init(b));
      }
    } else {
      OneLastSpot(x, u, v, b);
      assert s == x + u && t == x + v;
    }
  }

  lemma EditMovesByOne(e: Edit, w: string, b: string)
    requires Applicable(e, w)
    ensures Lev(w, b) <= Lev(Apply(e, w), b) + 1
  {
    hide Lev;
    var x := w[..e.at];
    match e
    case Insert(at, c) =>
      OneSpot(x, [], [c], w[at..], b);
      assert w == x + [] + w[at..];
    case Remove(at) =>
      OneSpot(x, [w[at]], [], w[at + 1..], b);
      assert w == x + [w[at]] + w[at + 1..];
      assert Apply(e, w) == x + [] + w[at + 1..];
    case Replace(at, c) =>
      OneSpot(x, [w[at]], [c], w[at + 1..], b);
      assert w == x + [w[at]] + w[at + 1..];
  }

  lemma {:induction false} SelfDistance(a: string)
    ensures Lev(a, a) == 0
  {
    if a != [] {
      SelfDistance(Init(a));
    }
  }

  lemma {:induction false} NoScriptBeats(script: seq<Edit>, a: string, b: string)
    requires Transforms(script, a, b)
    ensures Lev(a, b) <= |script|
  {
    if script == [] {
      SelfDistance(a);
    } else {
      EditMovesByOne(script[0], a, b);
      NoScriptBeats(script[1..], Apply(script[0], a), b);
    }
  }

  // ----- some script attains it -----

  lemma {:induction false} RemoveLast(script: seq<Edit>, a: string, b: string)
    requires a != [] && Transforms(script, Init(a), b)
    ensures Transforms([Remove(|a| - 1)] + script, a, b)
  {
    hide Transforms;
    assert Apply(Remove(|a| - 1), a) == Init(a);
    EditThen(Remove(|a| - 1), script, a, b);
  }

  lemma {:induction false} InsertLast(script: seq<Edit>, a: string, b: string)
    requires b != [] && Transforms(script, a, Init(b))
    ensures Transforms(script + [Insert(|b| - 1, Last(b))], a, b)
  {
    hide Transforms;
    ThenEdit(script, Insert(|b| - 1, Last(b)), a, Init(b));
    assert Apply(Insert(|b| - 1, Last(b)), Init(b)) == b;
  }

  lemma {:induction false} KeepLast(script: seq<Edit>, a: string, b: string)
    requires a != [] && b != [] && Transforms(script, Init(a), Init(b))
    ensures Transforms(script, a, Init(b) + [Last(a)])
  {
    hide Transforms;
    TransformsUnderSuffix(script, Init(a), Init(b), Last(a));
    assert Init(a) + [Last(a)] == a;
  }

  lemma ReplaceEnd(b: string, x: char)
    requires b != []
    ensures var e := Replace(|b| - 1, Last(b));
            Applicable(e, Init(b) + [x]) && Apply(e, Init(b) + [x]) == b
  {
  }

  lemma {:induction false} ReplaceLast(script: seq<Edit>, a: string, b: string)
    requires a != [] && b != [] && Transforms(script, Init(a), Init(b))
    ensures Transforms(script + [Replace(|b| - 1, Last(b))], a, b)
  {
    hide Transforms;
    ReplaceEnd(b, Last(a));
    KeepLast(script, a, b);
    ThenEdit(script, Replace(|b| - 1, Last(b)), a, Init(b) + [Last(a)]);
  }

  lemma Nothing()
    ensures Transforms([], "", "")
  {
  }

  lemma {:induction false} Attained(a: string, b: string) returns (script: seq<Edit>)
    ensures Transforms(script, a, b) && |script| == Lev(a, b)
    decreases |a| + |b|
  {
    hide Transforms;
    if b == [] || (a != [] && Lev(a, b) == Lev(Init(a), b) + 1) {
      if a == [] {
        Nothing();
        return [];
      }
      var rest := Attained(Init(a), b);
      RemoveLast(rest, a, b);
      return [Remove(|a| - 1)] + rest;
    }
    if a == [] || Lev(a, b) == Lev(a, Init(b)) + 1 {
      var rest := Attained(a, Init(b));
      InsertLast(rest, a, b);
      return rest + [Insert(|b| - 1, Last(b))];
    }
    var rest := Attained(Init(a), Init(b));
    if Last(a) == Last(b) {
      KeepLast(rest, a, b);
      assert Init(b) + [Last(b)] == b;
      return rest;
    }
    ReplaceLast(rest, a, b);
    return rest + [Replace(|b| - 1, Last(b))];
  }

  /** `d` is the least number of edits that turn `a` into `b`. */
  ghost predicate IsEditDistance(d: int, a: string, b: string) {
    && (exists script :: Transforms(script, a, b) && |script| == d)
    && (forall script :: Transforms(script, a, b) ==> d <= |script|)
  }

  lemma {:induction false} LevIsEditDistance(a: string, b: string)
    ensures IsEditDistance(Lev(a, b), a, b)
  {
    var best := Attained(a, b);
    forall script | Transforms(script, a, b) ensures Lev(a, b) <= |script| {
      NoScriptBeats(script, a, b);
    }
  }

  // ----- the metric laws -----

  lemma {:induction false} ZeroExactlyOnEqualWords(a: string, b: string)
    ensures Lev(a, b) == 0 <==> a == b
  {
    SelfDistance(a);
    if Lev(a, b) == 0 {
      var none := Attained(a, b);
      assert none == [];
    }
  }

  lemma {:induction false} Triangle(a: string, b: string, c: string)
    ensures Lev(a, c) <= Lev(a, b) + Lev(b, c)
  {
    var s := Attained(a, b);
    var t := Attained(b, c);
    TransformsConcat(s, t, a, b, c);
    NoScriptBeats(s + t, a, c);
  }

  lemma {:induction false} Bounds(a: string, b: string)
    ensures |a| - |b| <= Lev(a, b) && |b| - |a| <= Lev(a, b)
    ensures Lev(a, b) <= if |a| < |b| then |b| else |a|
    decreases |a| + |b|
  {
    if a != [] && b != [] {
      Bounds(Init(a), b);
      Bounds(a, Init(b));
      Bounds(Init(a), Init(b));
    }
  }
}
