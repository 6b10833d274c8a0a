/** The hook of `initLogging` that removes terminal formatting from a log line
    (src/stms/logging.cpp:48-56), with the 64-bit arithmetic of `std::string`. */
module EscapeStripping {

  const ESC: char := '\U{1B}'
  const NPOS: nat := 0xFFFF_FFFF_FFFF_FFFF

  /** `std::string::find`: the first position of `c` at or after `from`, or `NPOS`. */
  function Find(s: string, c: char, from: nat): (r: nat)
    requires from <= |s| < NPOS
    ensures if r == NPOS then c !in s[from..] else from <= r < |s| && s[r] == c && c !in s[from..r]
    decreases |s| - from
  {
    if from == |s| then NPOS
    else if s[from] == c then from
    else Find(s, c, from + 1)
  }

  /** `std::string::erase`: `count` is clipped to the end of the string. */
  function Erase(s: string, start: nat, count: nat): string
    requires start <= |s|
  {
    s[..start] + if start + count < |s| then s[start + count..] else []
  }

  /** One turn of the loop; `(end - start) + 1` wraps around in 64 bits. */
  function Turn(s: string): (r: string)
    requires |s| < NPOS && ESC in s
    ensures |r| <= |s|
  {
    var start := Find(s, ESC, 0);
    var end := Find(s, 'm', start);
    Erase(s, start, (end - start + 1) % (NPOS + 1))
  }

  // ----- what the hook is for: one pass, deleting from each ESC to the next 'm' -----

  function Strip(s: string): string {
    if s == [] then []
    else if s[0] == ESC then StripCode(s[1..])
    else [s[0]] + Strip(s[1..])
  }

  /** `s` is what follows an ESC. */
  function StripCode(s: string): string {
    if s == [] then []
    else if s[0] == 'm' then Strip(s[1..])
    else StripCode(s[1..])
  }

  /** Some ESC is never closed. */
  predicate Unclosed(s: string) {
    exists p :: 0 <= p < |s| && s[p] == ESC && 'm' !in s[p..]
  }

  /** The texts on which the loop never ends: nothing visible, and a code left open. */
  predicate Endless(s: string) {
    Strip(s) == [] && Unclosed(s)
  }

  lemma {:induction false} PlainPrefix(t: string, rest: string)
    requires ESC !in t
    ensures Strip(t + rest) == t + Strip(rest)
  {
    if t == [] {
      assert t + rest == rest;
    } else {
      assert (t + rest)[1..] == t[1..] + rest;
      PlainPrefix(t[1..], rest);
    }
  }

  lemma {:induction false} ClosedCode(code: string, rest: string)
    requires 'm' !in code
    ensures StripCode(code + ['m'] + rest) == Strip(rest)
  {
    var s := code + ['m'] + rest;
    if code == [] {
      assert s[1..] == rest;
    } else {
      assert s[1..] == code[1..] + ['m'] + rest;
      ClosedCode(code[1..], rest);
    }
  }

  lemma {:induction false} OpenCode(code: string)
    requires 'm' !in code
    ensures StripCode(code) == []
  {
    if code != [] {
      OpenCode(code[1..]);
    }
  }

  /** With `OpenSpan`, the whole meaning of `Strip`. */
  lemma {:induction false} ClosedSpan(t: string, code: string, rest: string)
    requires ESC !in t && 'm' !in code
    ensures Strip(t + [ESC] + code + ['m'] + rest) == t + Strip(rest)
  {
    var tail := [ESC] + (code + ['m'] + rest);
    assert t + [ESC] + code + ['m'] + rest == t + tail;
    PlainPrefix(t, tail);
    assert tail[1..] == code + ['m'] + rest;
    ClosedCode(code, rest);
  }

  lemma {:induction false} OpenSpan(t: string, code: string)
    requires ESC !in t && 'm' !in code
    ensures Strip(t + [ESC] + code) == t
  {
    var tail := [ESC] + code;
    assert t + [ESC] + code == t + tail;
    PlainPrefix(t, tail);
    assert tail[1..] == code;
    OpenCode(code);
  }

  lemma {:induction false} StripLeavesNoEsc(s: string)
    ensures ESC !in Strip(s) && ESC !in StripCode(s)
  {
    if s != [] {
      StripLeavesNoEsc(s[1..]);
    }
  }

  lemma {:induction false} StripIsIdempotent(s: string)
    ensures Strip(Strip(s)) == Strip(s)
  {
    var t := Strip(s);
    StripLeavesNoEsc(s);
    PlainPrefix(t, []);
    assert t + [] == t;
  }

  lemma {:induction false} NoEscUnchanged(s: string)
    requires ESC !in s
    ensures Strip(s) == s
  {
    PlainPrefix(s, []);
    assert s + [] == s;
  }

  // ----- one turn of the loop -----

  lemma Around(s: string, i: nat, j: nat)
    requires i < j < |s|
    ensures s == s[..i] + [s[i]] + s[i + 1..j] + [s[j]] + s[j + 1..]
    ensures forall c :: c !in s[i..j] ==> c !in s[i + 1..j]
  {
    assert s[i..j] == [s[i]] + s[i + 1..j];
  }

  lemma AroundOne(s: string, i: nat)
    requires i < |s|
    ensures s == s[..i] + [s[i]] + s[i + 1..]
    ensures forall c :: c !in s[i..] ==> c !in s[i + 1..]
  {
    assert s[i..] == [s[i]] + s[i + 1..];
  }

  /** What the wrapped-around `(end - start) + 1` erases. */
  lemma {:induction false} TurnErases(s: string)
    requires |s| < NPOS && ESC in s
    ensures var start := Find(s, ESC, 0);
            start < |s| &&
            var end := Find(s, 'm', start);
            Turn(s) == if end == NPOS then if start == 0 then s else s[..start]
                       else s[..start] + s[end + 1..]
  {
    hide Find;
    var start := Find(s, ESC, 0);
    assert s[0..] == s;
    var end := Find(s, 'm', start);
    var count := (end - start + 1) % (NPOS + 1);
    if end == NPOS {
      assert count == if start == 0 then 0 else NPOS + 1 - start;
    } else {
      assert count == end - start + 1;
    }
  }

  /** A text with an ESC is: plain `t`, the ESC, `code`, and if the code is closed, its 'm' and `rest`.
      A turn keeps `t` and `rest`; on an open code at the very start it erases nothing. */
  lemma {:induction false} FirstCode(s: string)
      returns (t: string, code: string, rest: string, closed: bool)
    requires |s| < NPOS && ESC in s
    ensures ESC !in t && 'm' !in code
    ensures if closed then s == t + [ESC] + code + ['m'] + rest else s == t + [ESC] + code && rest == []
    ensures Turn(s) == if !closed && t == [] then s else t + rest
  {
    hide Find, Turn;
    TurnErases(s);
    var start := Find(s, ESC, 0);
    assert s[0..] == s && s[0..start] == s[..start];
    var end := Find(s, 'm', start);
    t, closed := s[..start], end != NPOS;
    if closed {
      code, rest := s[start + 1..end], s[end + 1..];
      Around(s, start, end);
    } else {
      code, rest := s[start + 1..], [];
      AroundOne(s, start);
    }
  }

  lemma {:induction false} TurnKeepsStrip(s: string)
    requires |s| < NPOS && ESC in s
    ensures Strip(Turn(s)) == Strip(s)
  {
    hide Strip, StripCode, Turn;
    var t, code, rest, closed := FirstCode(s);
    if closed {
      assert s == t + [ESC] + code + ['m'] + rest;
      ClosedSpan(t, code, rest);
      PlainPrefix(t, rest);
    } else if t != [] {
      assert s == t + [ESC] + code;
      OpenSpan(t, code);
      NoEscUnchanged(t);
      assert t + rest == t;
    }
  }

  /** An open code in `t + gone + rest` is one in `rest`. */
  lemma {:induction false} UnclosedIsLater(t: string, gone: string, rest: string)
    requires ESC !in t
    requires gone != [] ==> gone[|gone| - 1] == 'm'
    ensures Unclosed(t + gone + rest) <==> Unclosed(rest)
  {
    var s := t + gone + rest;
    var n := |t + gone|;
    if Unclosed(rest) {
      var p :| 0 <= p < |rest| && rest[p] == ESC && 'm' !in rest[p..];
      assert s[n + p..] == rest[p..] && s[n + p] == ESC;
    }
    if Unclosed(s) {
      var p :| 0 <= p < |s| && s[p] == ESC && 'm' !in s[p..];
      assert p >= |t|;
      assert gone != [] ==> s[n - 1] == 'm';
      assert p >= n;
      assert rest[p - n..] == s[p..] && rest[p - n] == ESC;
    }
  }

  lemma {:induction false} TurnKeepsEndless(s: string)
    requires |s| < NPOS && ESC in s
    ensures Endless(Turn(s)) <==> Endless(s)
  {
    hide Strip, StripCode, Turn, Unclosed;
    TurnKeepsStrip(s);
    var t, code, rest, closed := FirstCode(s);
    if closed {
      var gone := [ESC] + code + ['m'];
      UnclosedIsLater(t, gone, rest);
      assert s == t + gone + rest;
      UnclosedIsLater(t, [], rest);
      assert t + rest == t + [] + rest;
    } else if t != [] {
      OpenSpan(t, code);
      assert s == t + [ESC] + code;
    }
  }

  /** A text that a turn leaves alone is endless. */
  lemma {:induction false} TurnShortens(s: string)
    requires |s| < NPOS && ESC in s
    ensures Endless(s) || |Turn(s)| < |s|
  {
    hide Strip, StripCode, Turn;
    var t, code, rest, closed := FirstCode(s);
    if !closed && t == [] {
      OpenSpan([], code);
      assert s == [] + [ESC] + code && s[0] == ESC && s[0..] == s;
    }
  }

  lemma {:induction false} EndlessHasEsc(s: string)
    requires Endless(s)
    ensures ESC in s
  {
  }

  // ----- the loop as a whole -----

  /** The text after at most `n` turns. */
  function Turns(s: string, n: nat): string
    requires |s| < NPOS
    decreases n
  {
    if n == 0 || ESC !in s then s else Turns(Turn(s), n - 1)
  }

  ghost predicate LoopEnds(s: string)
    requires |s| < NPOS
  {
    exists n: nat :: ESC !in Turns(s, n)
  }

  lemma {:induction false} EndlessTurns(s: string, n: nat)
    requires |s| < NPOS && Endless(s)
    ensures ESC in Turns(s, n)
    decreases n
  {
    hide Strip, StripCode, Turn, Unclosed, Endless;
    EndlessHasEsc(s);
    if n > 0 {
      TurnKeepsEndless(s);
      EndlessTurns(Turn(s), n - 1);
    }
  }

  lemma {:induction false} EndsWithin(s: string)
    requires |s| < NPOS && !Endless(s)
    ensures ESC !in Turns(s, |s|) && Turns(s, |s|) == Strip(s)
    decreases |s|
  {
    hide Strip, StripCode, Turn, Unclosed, Endless;
    if ESC in s {
      TurnShortens(s);
      TurnKeepsEndless(s);
      TurnKeepsStrip(s);
      EndsWithin(Turn(s));
      MoreTurns(Turn(s), |Turn(s)|, |s| - 1);
    } else {
      NoEscUnchanged(s);
    }
  }

  lemma {:induction false} MoreTurns(s: string, n: nat, m: nat)
    requires |s| < NPOS && n <= m && ESC !in Turns(s, n)
    ensures Turns(s, m) == Turns(s, n)
    decreases n
  {
    hide Turn;
    if n > 0 && ESC in s {
      MoreTurns(Turn(s), n - 1, m - 1);
    }
  }

  /** Exactly when the hook returns. */
  lemma {:induction false} LoopEndsUnlessEndless(s: string)
    requires |s| < NPOS
    ensures LoopEnds(s) <==> !Endless(s)
  {
    hide Turns, Endless;
    if Endless(s) {
      forall n: nat ensures ESC in Turns(s, n) {
        EndlessTurns(s, n);
      }
    } else {
      EndsWithin(s);
    }
  }

  /** Log lines start with '[', the session header with '=': they never hang the hook. */
  lemma {:induction false} VisibleStartEnds(s: string)
    requires s == [] || s[0] != ESC
    ensures !Endless(s)
  {
  }

  /** An escape code with no end, alone on a line, hangs the hook. */
  lemma {:induction false} LoneEscIsEndless()
    ensures Endless([ESC]) && !LoopEnds([ESC])
  {
    assert [ESC][1..] == [] && [ESC][0] == ESC;
    assert 'm' !in [ESC][0..];
    assert Unclosed([ESC]);
    LoopEndsUnlessEndless([ESC]);
  }

  method StripEscapes(text: string) returns (str: string)
    requires |text| < NPOS && !Endless(text)
    ensures str == Strip(text)
    ensures ESC !in str
  {
    hide Strip, StripCode, Endless, Find;
    str := text;
    var start := Find(str, ESC, 0);
    while start != NPOS
      invariant |str| < NPOS && start == Find(str, ESC, 0)
      invariant !Endless(str) && Strip(str) == Strip(text)
      decreases |str|
    {
      assert ESC in str[0..] by { assert str[0..] == str; }
      TurnShortens(str);
      TurnKeepsEndless(str);
      TurnKeepsStrip(str);
      var end := Find(str, 'm', start);
      str := Erase(str, start, (end - start + 1) % (NPOS + 1));
      start := Find(str, ESC, 0);
    }
    assert str[0..] == str;
    NoEscUnchanged(str);
  }
}
