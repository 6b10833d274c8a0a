/** Words, single-character edits and scripts of edits: the meaning of "edit distance",
    stated without reference to any algorithm. */
module EditScripts {
  import opened Basics

  datatype Edit =
    | Insert(at: nat, c: char)
    | Remove(at: nat)
    | Replace(at: nat, c: char)

  predicate Applicable(e: Edit, w: string) {
    match e
    case Insert(at, _) => at <= |w|
    case Remove(at) => at < |w|
    case Replace(at, _) => at < |w|
  }

  function Apply(e: Edit, w: string): string
    requires Applicable(e, w)
  {
    match e
    case Insert(at, c) => w[..at] + [c] + w[at..]
    case Remove(at) => w[..at] + w[at + 1..]
    case Replace(at, c) => w[..at] + [c] + w[at + 1..]
  }

  /** The edits of `script`, applied in order, turn `a` into `b`. */
  predicate Transforms(script: seq<Edit>, a: string, b: string) {
    if script == [] then
      a == b
    else
      Applicable(script[0], a) && Transforms(script[1..], Apply(script[0], a), b)
  }

  lemma TransformsFront(s: seq<Edit>, a: string, b: string)
    requires s != []
    ensures Transforms(s, a, b) <==> Applicable(s[0], a) && Transforms(s[1..], Apply(s[0], a), b)
  {
    hide Apply, Applicable;
  }

  lemma {:induction false} TransformsConcat(s: seq<Edit>, t: seq<Edit>, a: string, b: string, c: string)
    requires Transforms(s, a, b) && Transforms(t, b, c)
    ensures Transforms(s + t, a, c)
  {
    if s == [] {
      assert s + t == t;
    } else {
      hide Apply, Applicable, Transforms;
      TransformsFront(s, a, b);
      TransformsConcat(s[1..], t, Apply(s[0], a), b, c);
      ConcatFront(s, t);
      TransformsFront(s + t, a, c);
    }
  }

  lemma {:induction false} EditThen(e: Edit, script: seq<Edit>, a: string, b: string)
    requires Applicable(e, a) && Transforms(script, Apply(e, a), b)
    ensures Transforms([e] + script, a, b)
  {
    assert ([e] + script)[1..] == script;
  }

  lemma {:induction false} ThenEdit(script: seq<Edit>, e: Edit, a: string, b: string)
    requires Transforms(script, a, b) && Applicable(e, b)
    ensures Transforms(script + [e], a, Apply(e, b))
  {
    assert Transforms([e], b, Apply(e, b));
    TransformsConcat(script, [e], a, b, Apply(e, b));
  }

  lemma AppendChar(e: Edit, w: string, x: char)
    requires Applicable(e, w)
    ensures Applicable(e, w + [x]) && Apply(e, w + [x]) == Apply(e, w) + [x]
  {
  }

  /** A script also works on a word that carries one more character at its end. */
  lemma {:induction false} TransformsUnderSuffix(s: seq<Edit>, a: string, b: string, x: char)
    requires Transforms(s, a, b)
    ensures Transforms(s, a + [x], b + [x])
  {
    if s != [] {
      hide Apply;
      AppendChar(s[0], a, x);
      TransformsUnderSuffix(s[1..], Apply(s[0], a), b, x);
    }
  }
}
