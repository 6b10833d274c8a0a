/** UUIDs (src/stms/util/uuid.cpp): their text in the layout of section 3 of RFC 4122, and the
    version and variant bits that `genUUID4` forces (sections 4.1.1, 4.1.3 and 4.4). */
module Uuid {
  import opened Basics
  import opened Hex

  type uint32 = n: nat | n < 0x1_0000_0000 witness 0
  type uint16 = n: nat | n < 0x1_0000 witness 0
  type uint8 = n: nat | n < 0x100 witness 0
  type Node = s: seq<uint8> | |s| == 6 witness [0, 0, 0, 0, 0, 0]

  datatype UUID = UUID(
    timeLow: uint32,
    timeMid: uint16,
    timeHiAndVersion: uint16,
    clockSeqHiAndReserved: uint8,
    clockSeqLow: uint8,
    node: Node)

  // ----- text -----

  function NodeText(node: seq<uint8>): (s: string)
    ensures |s| == 2 * |node|
  {
    if node == [] then "" else NodeText(node[..|node| - 1]) + LowDigits(node[|node| - 1], 2)
  }

  function Layout(a: string, b: string, c: string, d: string, e: string, f: string): string {
    a + "-" + b + "-" + c + "-" + d + e + "-" + f
  }

  function Text(u: UUID): (s: string)
    ensures |s| == 36
  {
    Layout(LowDigits(u.timeLow, 8), LowDigits(u.timeMid, 4), LowDigits(u.timeHiAndVersion, 4),
           LowDigits(u.clockSeqHiAndReserved, 2), LowDigits(u.clockSeqLow, 2), NodeText(u.node))
  }

  /** time_low "-" time_mid "-" time_hi_and_version "-" clock_seq_hi_and_reserved clock_seq_low "-" node,
      all in lower-case hexadecimal digits. */
  predicate Canonical(s: string) {
    && |s| == 36
    && s[8] == s[13] == s[18] == s[23] == '-'
    && IsHex(s[..8]) && IsHex(s[9..13]) && IsHex(s[14..18]) && IsHex(s[19..21]) && IsHex(s[21..23]) && IsHex(s[24..])
  }

  function NodeOf(s: string): (node: seq<uint8>)
    requires |s| % 2 == 0
    ensures |node| == |s| / 2
  {
    if s == "" then []
    else
      var n := |s| - 2;
      PowersOf16();
      NodeOf(s[..n]) + [Value(s[n..])]
  }

  lemma PowersOf16()
    ensures Pow16(2) == 0x100 && Pow16(4) == 0x1_0000 && Pow16(8) == 0x1_0000_0000
  {
    assert Pow16(1) == 16 && Pow16(3) == 0x1000;
    assert Pow16(5) == 0x10_0000 && Pow16(6) == 0x100_0000 && Pow16(7) == 0x1000_0000;
  }

  function Parse(s: string): UUID
    requires |s| == 36
  {
    PowersOf16();
    UUID(Value(s[..8]), Value(s[9..13]), Value(s[14..18]), Value(s[19..21]), Value(s[21..23]), NodeOf(s[24..]))
  }

  lemma ValueOf(n: nat, k: nat)
    requires n < Pow16(k)
    ensures Value(LowDigits(n, k)) == n && IsHex(LowDigits(n, k))
  {
    ValueOfLowDigits(n, k);
  }

  lemma {:induction false} NodeRoundTrip(node: seq<uint8>)
    ensures NodeOf(NodeText(node)) == node && IsHex(NodeText(node))
  {
    if node != [] {
      hide LowDigits, Value, Pow16, IsHex, NodeOf, NodeText;
      var n := |node| - 1;
      NodeRoundTrip(node[..n]);
      NodeTextLast(node);
      PowersOf16();
      ValueOf(node[n], 2);
      HexConcat(NodeText(node[..n]), LowDigits(node[n], 2));
      NodeOfConcat(NodeText(node[..n]), LowDigits(node[n], 2));
      FrontAndLast(node);
    }
  }

  lemma NodeTextLast(node: seq<uint8>)
    requires node != []
    ensures NodeText(node) == NodeText(node[..|node| - 1]) + LowDigits(node[|node| - 1], 2)
  {
    hide LowDigits;
  }

  lemma NodeOfConcat(s: string, last: string)
    requires |s| % 2 == 0 && |last| == 2
    ensures NodeOf(s + last) == NodeOf(s) + [Value(last)]
  {
    hide Value, Pow16;
    assert (s + last)[..|s|] == s && (s + last)[|s|..] == last;
  }

  lemma LayoutParts(a: string, b: string, c: string, d: string, e: string, f: string)
    requires |a| == 8 && |b| == |c| == 4 && |d| == |e| == 2
    ensures var s := Layout(a, b, c, d, e, f);
            && |s| == 24 + |f|
            && s[..8] == a && s[9..13] == b && s[14..18] == c && s[19..21] == d && s[21..23] == e && s[24..] == f
            && s[8] == s[13] == s[18] == s[23] == '-'
  {
    var s := Layout(a, b, c, d, e, f);
    assert s[..8] == a;
    assert s[9..13] == b;
    assert s[14..18] == c;
    assert s[19..21] == d;
    assert s[21..23] == e;
  }

  lemma PartsLayout(s: string)
    requires |s| == 36 && s[8] == s[13] == s[18] == s[23] == '-'
    ensures s == Layout(s[..8], s[9..13], s[14..18], s[19..21], s[21..23], s[24..])
  {
  }

  lemma TextParts(u: UUID)
    ensures var s := Text(u);
            && s[..8] == LowDigits(u.timeLow, 8) && s[9..13] == LowDigits(u.timeMid, 4)
            && s[14..18] == LowDigits(u.timeHiAndVersion, 4) && s[19..21] == LowDigits(u.clockSeqHiAndReserved, 2)
            && s[21..23] == LowDigits(u.clockSeqLow, 2) && s[24..] == NodeText(u.node)
            && s[8] == s[13] == s[18] == s[23] == '-'
  {
    hide Layout, LowDigits, NodeText;
    LayoutParts(LowDigits(u.timeLow, 8), LowDigits(u.timeMid, 4), LowDigits(u.timeHiAndVersion, 4),
                LowDigits(u.clockSeqHiAndReserved, 2), LowDigits(u.clockSeqLow, 2), NodeText(u.node));
  }

  lemma {:induction false} NodeTextAt(node: seq<uint8>, k: nat)
    requires k < |node|
    ensures NodeText(node)[2 * k..2 * k + 2] == LowDigits(node[k], 2)
  {
    hide LowDigits, NodeText;
    var n := |node| - 1;
    NodeTextLast(node);
    if k < n {
      NodeTextAt(node[..n], k);
      assert NodeText(node)[2 * k..2 * k + 2] == NodeText(node[..n])[2 * k..2 * k + 2];
    }
  }

  /** Where each field stands in the text, read as a hexadecimal number. */
  lemma {:induction false} FieldsInText(u: UUID)
    ensures var s := Text(u);
            && Value(s[..8]) == u.timeLow && Value(s[9..13]) == u.timeMid && Value(s[14..18]) == u.timeHiAndVersion
            && Value(s[19..21]) == u.clockSeqHiAndReserved && Value(s[21..23]) == u.clockSeqLow
            && forall k :: 0 <= k < 6 ==> Value(s[24 + 2 * k..26 + 2 * k]) == u.node[k]
  {
    hide Text, LowDigits, NodeText, Value, IsHex, Pow16;
    TextParts(u);
    PowersOf16();
    ValueOf(u.timeLow, 8);
    ValueOf(u.timeMid, 4);
    ValueOf(u.timeHiAndVersion, 4);
    ValueOf(u.clockSeqHiAndReserved, 2);
    ValueOf(u.clockSeqLow, 2);
    var s := Text(u);
    forall k | 0 <= k < 6 ensures Value(s[24 + 2 * k..26 + 2 * k]) == u.node[k] {
      NodeTextAt(u.node, k);
      assert s[24 + 2 * k..26 + 2 * k] == s[24..][2 * k..2 * k + 2];
      ValueOf(u.node[k], 2);
    }
  }

  /** The text is canonical, and reading it back recovers every field. */
  lemma {:induction false} ParseText(u: UUID)
    ensures Canonical(Text(u)) && Parse(Text(u)) == u
  {
    hide Text, LowDigits, NodeText, NodeOf, Value, IsHex, Pow16;
    TextParts(u);
    PowersOf16();
    ValueOf(u.timeLow, 8);
    ValueOf(u.timeMid, 4);
    ValueOf(u.timeHiAndVersion, 4);
    ValueOf(u.clockSeqHiAndReserved, 2);
    ValueOf(u.clockSeqLow, 2);
    NodeRoundTrip(u.node);
  }

  lemma {:induction false} TextInjective(u: UUID, v: UUID)
    ensures Text(u) == Text(v) <==> u == v
  {
    ParseText(u);
    ParseText(v);
  }

  lemma {:induction false} TextOfNode(s: string)
    requires |s| % 2 == 0 && IsHex(s)
    ensures NodeText(NodeOf(s)) == s
  {
    if s != "" {
      hide LowDigits, Value, IsHex;
      var n := |s| - 2;
      assert s == s[..n] + s[n..];
      HexConcat(s[..n], s[n..]);
      TextOfNode(s[..n]);
      LowDigitsOfValue(s[n..]);
      assert NodeOf(s)[..|NodeOf(s)| - 1] == NodeOf(s[..n]);
    }
  }

  /** Every canonical text is the text of a UUID. */
  lemma {:induction false} TextParse(s: string)
    requires Canonical(s)
    ensures Text(Parse(s)) == s
  {
    hide LowDigits, NodeText, NodeOf, Value, IsHex, Layout;
    LowDigitsOfValue(s[..8]);
    LowDigitsOfValue(s[9..13]);
    LowDigitsOfValue(s[14..18]);
    LowDigitsOfValue(s[19..21]);
    LowDigitsOfValue(s[21..23]);
    TextOfNode(s[24..]);
    PartsLayout(s);
  }

  method FieldText(n: uint32, places: nat) returns (s: string)
    requires places in {2, 4, 8} && n < Pow16(places)
    ensures s == LowDigits(n, places)
  {
    FitsPlaces(n, places);
    s := ToHex(n, places);
  }

  /** The fold over the bytes of the node. */
  method NodeStr(node: Node) returns (s: string)
    ensures s == "-" + NodeText(node)
  {
    hide LowDigits, Pow16;
    PowersOf16();
    s := "-";
    for i := 0 to |node|
      invariant s == "-" + NodeText(node[..i])
    {
      var part := FieldText(node[i], 2);
      assert node[..i + 1][..i] == node[..i];
      s := s + part;
    }
    assert node[..|node|] == node;
  }

  method BuildStr(u: UUID) returns (ret: string)
    ensures ret == Text(u)
    ensures Value(ret[..8]) == u.timeLow && Value(ret[9..13]) == u.timeMid && Value(ret[14..18]) == u.timeHiAndVersion
    ensures Value(ret[19..21]) == u.clockSeqHiAndReserved && Value(ret[21..23]) == u.clockSeqLow
    ensures forall k :: 0 <= k < 6 ==> Value(ret[24 + 2 * k..26 + 2 * k]) == u.node[k]
  {
    hide LowDigits, NodeText, Pow16, Value;
    PowersOf16();
    FieldsInText(u);
    ret := FieldText(u.timeLow, 8);
    ret := ret + "-";
    var part := FieldText(u.timeMid, 4);
    ret := ret + part + "-";
    part := FieldText(u.timeHiAndVersion, 4);
    ret := ret + part + "-";
    part := FieldText(u.clockSeqHiAndReserved, 2);
    ret := ret + part;
    part := FieldText(u.clockSeqLow, 2);
    ret := ret + part;
    part := NodeStr(u.node);
    ret := ret + part;
  }
}
