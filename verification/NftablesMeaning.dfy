/** What the masquerade batch asks for: a reader of the rule's expressions that runs them on a packet, and a reader of
    the table and chain they go into. */
module NftablesMeaning {
  import opened Bytes
  import opened Bits
  import opened Netlink
  import opened Nftables

  // ---- Reading trees ----

  function Find(trees: seq<Tree>, kind: uint16): Option<Tree>
  {
    if trees == [] then None
    else if trees[0].kind == kind then Some(trees[0])
    else Find(trees[1..], kind)
  }

  function Bytestring(trees: seq<Tree>, kind: uint16): Option<seq<byte>>
  {
    match Find(trees, kind)
    case Some(Leaf(_, value)) => Some(value)
    case _ => None
  }

  function Inside(trees: seq<Tree>, kind: uint16): Option<seq<Tree>>
  {
    match Find(trees, kind)
    case Some(Nest(_, children)) => Some(children)
    case _ => None
  }

  /** A number in network byte order. */
  function Number(trees: seq<Tree>, kind: uint16): Option<uint32>
  {
    match Bytestring(trees, kind)
    case Some(v) => if |v| == 4 then Some(ReadUint32(v)) else None
    case None => None
  }

  /** The bytes of a data attribute: nested, under type 1. */
  function Value1(trees: seq<Tree>, kind: uint16): Option<seq<byte>>
  {
    match Inside(trees, kind)
    case Some(children) => Bytestring(children, 1)
    case None => None
  }

  // ---- Running a rule ----

  /** A packet on its way out: its network header, and the interface it leaves by. */
  datatype Outgoing = Outgoing(header: seq<byte>, interface: seq<byte>)

  datatype Outcome = Next(registers: map<uint32, seq<byte>>) | NoMatch | Masqueraded | Unsupported

  lemma {:induction false} AndBound(x: nat, y: nat)
    ensures And(x, y) <= x
    decreases x + y
  {
    if x != 0 || y != 0 {
      AndBound(x / 2, y / 2);
    }
  }

  function AndByte(x: byte, y: byte): byte
  {
    AndBound(x, y);
    And(x, y)
  }

  function AndBytes(a: seq<byte>, b: seq<byte>): (r: seq<byte>)
    requires |a| == |b|
    ensures |r| == |a| && forall i :: 0 <= i < |a| ==> r[i] == AndByte(a[i], b[i])
  {
    seq(|a|, i requires 0 <= i < |a| => AndByte(a[i], b[i]))
  }

  // "payload", "meta", "bitwise", "cmp" and "masq", each with its closing zero.
  const PAYLOAD_Z: seq<byte> := [0x70, 0x61, 0x79, 0x6c, 0x6f, 0x61, 0x64, 0]
  const META_Z: seq<byte> := [0x6d, 0x65, 0x74, 0x61, 0]
  const BITWISE_Z: seq<byte> := [0x62, 0x69, 0x74, 0x77, 0x69, 0x73, 0x65, 0]
  const CMP_Z: seq<byte> := [0x63, 0x6d, 0x70, 0]
  const MASQ_Z: seq<byte> := [0x6d, 0x61, 0x73, 0x71, 0]

  /** One expression, by its name: payload (base 1, the network header) and meta (key 7, the name of the output
      interface in 16 bytes) load a register, bitwise (operation 0) masks one, cmp (operation 0, equality) compares one,
      masq ends the rule. */
  function Evaluate(expr: Tree, registers: map<uint32, seq<byte>>, p: Outgoing): Outcome
  {
    if expr.Leaf? || expr.kind != 1 then Unsupported
    else
      match (Bytestring(expr.children, 1), Inside(expr.children, 2))
      case (Some(name), Some(d)) =>
        if name == PAYLOAD_Z then LoadPayload(d, registers, p)
        else if name == META_Z then LoadMeta(d, registers, p)
        else if name == BITWISE_Z then Mask(d, registers)
        else if name == CMP_Z then Compare(d, registers)
        else if name == MASQ_Z then Masqueraded
        else Unsupported
      case _ => Unsupported
  }

  function LoadPayload(d: seq<Tree>, registers: map<uint32, seq<byte>>, p: Outgoing): Outcome
  {
    match (Number(d, 1), Number(d, 2), Number(d, 3), Number(d, 4))
    case (Some(register), Some(base), Some(offset), Some(length)) =>
      if base != 1 then Unsupported
      else if offset + length > |p.header| then NoMatch
      else Next(registers[register := p.header[offset..offset + length]])
    case _ => Unsupported
  }

  function LoadMeta(d: seq<Tree>, registers: map<uint32, seq<byte>>, p: Outgoing): Outcome
  {
    match (Number(d, 1), Number(d, 2))
    case (Some(register), Some(key)) =>
      if key != 7 || |p.interface| >= 16 then Unsupported
      else Next(registers[register := p.interface + Zeros(16 - |p.interface|)])
    case _ => Unsupported
  }

  function Mask(d: seq<Tree>, registers: map<uint32, seq<byte>>): Outcome
  {
    match (Number(d, 1), Number(d, 2), Number(d, 3), Value1(d, 4), Value1(d, 5), Number(d, 6))
    case (Some(from), Some(to), Some(length), Some(mask), Some(flips), Some(op)) =>
      if op != 0 || from !in registers || |registers[from]| != length || |mask| != length || flips != Zeros(length)
      then Unsupported
      else Next(registers[to := AndBytes(registers[from], mask)])
    case _ => Unsupported
  }

  function Compare(d: seq<Tree>, registers: map<uint32, seq<byte>>): Outcome
  {
    match (Number(d, 1), Number(d, 2), Value1(d, 3))
    case (Some(register), Some(op), Some(value)) =>
      if op != 0 || register !in registers then Unsupported
      else if registers[register] == value then Next(registers)
      else NoMatch
    case _ => Unsupported
  }

  /** The expressions of a rule, until one ends it. */
  function Run(exprs: seq<Tree>, registers: map<uint32, seq<byte>>, p: Outgoing): Outcome
  {
    if exprs == [] then Next(registers)
    else
      var o := Evaluate(exprs[0], registers, p);
      if o.Next? then Run(exprs[1..], o.registers, p) else o
  }

  // ---- The masquerade rule ----

  lemma Be32Reads(v: uint32)
    ensures |Be32(v)| == 4 && ReadUint32(Be32(v)) == v
  {
    Widths();
    BigEndianReads(v, 4);
  }

  lemma ExprOpens(name: seq<byte>, d: seq<Tree>)
    ensures Expr(name, d).Nest? && Expr(name, d).kind == 1
    ensures Bytestring(Expr(name, d).children, 1) == Some(name + [0]) && Inside(Expr(name, d).children, 2) == Some(d)
  {
    var cs := [Leaf(1, Zstr(name)), Nest(2, d)];
    assert Expr(name, d).children == cs && cs[1..] == [Nest(2, d)];
    assert Find(cs, 2) == Find(cs[1..], 2) == Some(cs[1]);
  }

  lemma NamesApart()
    ensures PAYLOAD + [0] == PAYLOAD_Z && META + [0] == META_Z && BITWISE + [0] == BITWISE_Z
    ensures CMP + [0] == CMP_Z && MASQ + [0] == MASQ_Z
    ensures PAYLOAD_Z != META_Z && PAYLOAD_Z != BITWISE_Z && PAYLOAD_Z != CMP_Z && PAYLOAD_Z != MASQ_Z
    ensures META_Z != BITWISE_Z && META_Z != CMP_Z && META_Z != MASQ_Z
    ensures BITWISE_Z != CMP_Z && BITWISE_Z != MASQ_Z && CMP_Z != MASQ_Z
  {
    assert PAYLOAD_Z[0] != BITWISE_Z[0] && META_Z[1] != MASQ_Z[1];
  }

  /** What a name leads to. */
  lemma Named(d: seq<Tree>, registers: map<uint32, seq<byte>>, p: Outgoing)
    ensures Evaluate(Expr(PAYLOAD, d), registers, p) == LoadPayload(d, registers, p)
    ensures Evaluate(Expr(META, d), registers, p) == LoadMeta(d, registers, p)
    ensures Evaluate(Expr(BITWISE, d), registers, p) == Mask(d, registers)
    ensures Evaluate(Expr(CMP, d), registers, p) == Compare(d, registers)
    ensures Evaluate(Expr(MASQ, d), registers, p) == Masqueraded
  {
    hide LoadPayload, LoadMeta, Mask, Compare, Expr, Bytestring, Inside;
    hide PAYLOAD, META, BITWISE, CMP, MASQ, PAYLOAD_Z, META_Z, BITWISE_Z, CMP_Z, MASQ_Z;
    NamesApart();
    ExprOpens(PAYLOAD, d);
    ExprOpens(META, d);
    ExprOpens(BITWISE, d);
    ExprOpens(CMP, d);
    ExprOpens(MASQ, d);
  }

  lemma PayloadRuns(registers: map<uint32, seq<byte>>, p: Outgoing)
    requires |p.header| >= 20
    ensures Evaluate(Expr(PAYLOAD, PAYLOAD_DATA), registers, p) == Next(registers[1 := p.header[12..16]])
  {
    hide Be32, ReadUint32;
    Named(PAYLOAD_DATA, registers, p);
    hide Evaluate, Expr;
    Be32Reads(1);
    Be32Reads(12);
    Be32Reads(4);
    var d := PAYLOAD_DATA;
    assert d[1..][0] == d[1] && d[1..][1..][0] == d[2] && d[1..][1..][1..][0] == d[3];
    assert Find(d[1..][1..], 3) == Some(d[2]) && Find(d[1..][1..][1..], 4) == Some(d[3]);
  }

  lemma MaskReads(mask: seq<byte>)
    ensures
      var d := BitwiseData(mask);
      && Find(d, 1) == Some(d[0]) && Find(d, 2) == Some(d[1]) && Find(d, 3) == Some(d[2])
      && Find(d, 4) == Some(d[3]) && Find(d, 5) == Some(d[4]) && Find(d, 6) == Some(d[5])
  {
    hide Be32;
    var d := BitwiseData(mask);
    FindNext(d, 2);
    FindNext(d, 3);
    FindNext(d, 4);
    FindNext(d, 5);
    FindNext(d, 6);
  }

  /** In a list numbered from 1 the attribute of each type is found in its place. */
  lemma {:induction false} FindNext(d: seq<Tree>, kind: nat)
    requires 1 <= kind <= |d| && kind < TWO_16 && forall i :: 0 <= i < kind ==> d[i].kind == i + 1
    ensures Find(d, kind) == Some(d[kind - 1])
  {
    FindFrom(d, kind, 0);
  }

  lemma {:induction false} FindFrom(d: seq<Tree>, kind: nat, i: nat)
    requires i < kind <= |d| && kind < TWO_16 && forall j :: 0 <= j < kind ==> d[j].kind == j + 1
    ensures Find(d[i..], kind) == Some(d[kind - 1])
    ensures i == 0 ==> Find(d, kind) == Some(d[kind - 1])
    decreases kind - i
  {
    assert d[0..] == d;
    if i + 1 < kind {
      FindFrom(d, kind, i + 1);
      assert d[i..][1..] == d[i + 1..] && d[i..][0] == d[i];
    }
  }

  lemma MaskRuns(mask: seq<byte>, registers: map<uint32, seq<byte>>, p: Outgoing)
    requires |mask| == 4 && 1 in registers && |registers[1]| == 4
    ensures Evaluate(Expr(BITWISE, BitwiseData(mask)), registers, p) ==
            Next(registers[1 := AndBytes(registers[1], mask)])
  {
    var d := BitwiseData(mask);
    MaskReads(mask);
    hide Be32, ReadUint32, AndBytes, Find, Expr;
    Be32Reads(1);
    Be32Reads(4);
    Be32Reads(0);
    DataReads(mask);
    DataReads(Zeros(4));
    assert Mask(d, registers) == Next(registers[1 := AndBytes(registers[1], mask)]);
    Named(d, registers, p);
  }

  lemma DataReads(v: seq<byte>)
    ensures Bytestring(Data(v), 1) == Some(v)
  {
  }

  lemma CompareRuns(register: uint32, value: seq<byte>, registers: map<uint32, seq<byte>>, p: Outgoing)
    requires register in registers
    ensures Evaluate(Expr(CMP, CmpData(register, value)), registers, p) ==
            if registers[register] == value then Next(registers) else NoMatch
  {
    hide Be32, ReadUint32;
    var d := CmpData(register, value);
    Named(d, registers, p);
    hide Evaluate, Expr;
    Be32Reads(register);
    Be32Reads(0);
    assert d[1..][0] == d[1] && d[1..][1..][0] == d[2];
    assert Find(d, 3) == Find(d[1..], 3) == Find(d[1..][1..], 3) == Some(d[2]);
    assert Find(d, 2) == Find(d[1..], 2) == Some(d[1]);
  }

  lemma MetaRuns(registers: map<uint32, seq<byte>>, p: Outgoing)
    requires |p.interface| < 16
    ensures Evaluate(Expr(META, META_DATA), registers, p) ==
            Next(registers[2 := p.interface + Zeros(16 - |p.interface|)])
  {
    hide Be32, ReadUint32;
    var d := META_DATA;
    Named(d, registers, p);
    hide Evaluate, Expr;
    Be32Reads(2);
    Be32Reads(7);
    assert d[1..][0] == d[1];
    assert Find(d, 2) == Find(d[1..], 2) == Some(d[1]);
  }

  lemma MasqRuns(registers: map<uint32, seq<byte>>, p: Outgoing)
    ensures Evaluate(Expr(MASQ, []), registers, p) == Masqueraded
  {
    Named([], registers, p);
  }

  /** The rule as it is read back from its bytes masquerades a packet exactly when the source address of its IPv4 header
      (bytes 12 to 15, section 3.1 of RFC 791), under the mask, is the network's address, and it leaves by the named
      interface; every other packet passes by. */
  lemma MasqueradesIff(ip: seq<byte>, mask: seq<byte>, name: seq<byte>, p: Outgoing)
    requires |ip| == 4 && |mask| == 4 && |p.header| >= 20 && |p.interface| < 16
    ensures
      var o := Run(ReadTrees(Build(Masquerade(ip, mask, name))), map[], p);
      o == if AndBytes(p.header[12..16], mask) == ip && p.interface + Zeros(16 - |p.interface|) == Name16(name)
           then Masqueraded else NoMatch
  {
    hide Evaluate, AndBytes, ReadTrees, Build, Fits, Expr;
    var m := Masquerade(ip, mask, name);
    MasqueradeFits(ip, mask, name);
    NestedRoundTrip(m);
    var source := AndBytes(p.header[12..16], mask);
    var leaving := p.interface + Zeros(16 - |p.interface|);
    var r0: map<uint32, seq<byte>> := map[];
    var r1 := r0[1 := p.header[12..16]];
    var r2 := r1[1 := source];
    var r4 := r2[2 := leaving];
    PayloadRuns(r0, p);
    MaskRuns(mask, r1, p);
    CompareRuns(1, ip, r2, p);
    MetaRuns(r2, p);
    CompareRuns(2, Name16(name), r4, p);
    MasqRuns(r4, p);
    RunFirst(m[0], m[1..], r0, p);
    RunFirst(m[1], m[2..], r1, p);
    RunFirst(m[2], m[3..], r2, p);
    RunFirst(m[3], m[4..], r2, p);
    RunFirst(m[4], m[5..], r4, p);
    RunFirst(m[5], [], r4, p);
    assert m[0..] == m && m[6..] == [];
    Suffix(m, 0); Suffix(m, 1); Suffix(m, 2);
    Suffix(m, 3); Suffix(m, 4); Suffix(m, 5);
  }

  lemma RunFirst(expr: Tree, rest: seq<Tree>, registers: map<uint32, seq<byte>>, p: Outgoing)
    ensures
      var o := Evaluate(expr, registers, p);
      Run([expr] + rest, registers, p) == if o.Next? then Run(rest, o.registers, p) else o
  {
    hide Evaluate;
    assert ([expr] + rest)[1..] == rest;
  }

  lemma Suffix(m: seq<Tree>, i: nat)
    requires i < |m|
    ensures m[i..] == [m[i]] + m[i + 1..]
  {
  }

  /** Names are compared whole: an interface matches exactly when it has the configured name. A configured name of
      sixteen bytes or more matches no interface. */
  lemma NameMatchesIff(interface: seq<byte>, name: seq<byte>)
    requires |interface| < 16 && 0 !in interface && 0 !in name
    ensures interface + Zeros(16 - |interface|) == Name16(name) <==> interface == name
  {
    var a, b := interface + Zeros(16 - |interface|), Name16(name);
    var n := |interface|;
    if |name| >= 16 {
      assert a[15] == 0 && b[15] == name[15] && name[15] in name;
    } else if n < |name| {
      assert a[n] == 0 && b[n] == name[n] && name[n] in name;
    } else if |name| < n {
      assert b[|name|] == 0 && a[|name|] == interface[|name|] && interface[|name|] in interface;
    } else {
      assert a[..n] == interface && b[..n] == name;
    }
  }

  // ---- Where the rule goes ----

  /** The batch, by message type (10 * 256 + 0, 3, 6) and IPv4 family (2): it makes the table, then in that table a
      chain of type nat hooked to postrouting (4) with priority 100, then in that chain of that table a rule with the
      expressions given; between a batch-begin (16) and a batch-end (17) for subsystem 10. */
  lemma BatchMeans(spec: Spec)
    requires SpecFits(spec)
    ensures
      var m := Messages(Batch(MasqueradeMessages(spec))).messages;
      && |m| == 5 && m[0].kind == 16 && m[4].kind == 17 && m[0].payload == m[4].payload == [0, 0, 0, 10]
      && (forall i :: 1 <= i < 4 ==> |m[i].payload| >= 4 && m[i].payload[..4] == [2, 0, 0, 0])
      && m[1].kind == 2560 && m[2].kind == 2563 && m[3].kind == 2566
      && Bytestring(ReadTrees(m[1].payload[4..]), 1) == Some(spec.table + [0])
      && var chain := ReadTrees(m[2].payload[4..]);
      && Bytestring(chain, 1) == Some(spec.table + [0]) && Bytestring(chain, 3) == Some(spec.chain + [0])
      && Bytestring(chain, 7) == Some([0x6e, 0x61, 0x74, 0])
      && Inside(chain, 4).Some? && Number(Inside(chain, 4).value, 1) == Some(4)
         && Number(Inside(chain, 4).value, 2) == Some(100)
      && var rule := ReadTrees(m[3].payload[4..]);
      && Bytestring(rule, 1) == Some(spec.table + [0]) && Bytestring(rule, 2) == Some(spec.chain + [0])
      && Bytestring(rule, 4) == Some(Build(Masquerade(spec.ip, spec.mask, spec.name)))
  {
    hide Messages, Batch, ReadTrees, Build, Masquerade, Find;
    MasqueradeReads(spec);
    var m := MasqueradeMessages(spec);
    Headers(spec);
    TableReads(spec.table);
    ChainReads(spec.table, spec.chain);
    RuleReads(spec.table, spec.chain, Build(Masquerade(spec.ip, spec.mask, spec.name)));
  }

  lemma Headers(spec: Spec)
    ensures
      var m := MasqueradeMessages(spec);
      && m[0].payload == m[4].payload == [0, 0, 0, 10]
      && forall i :: 1 <= i < 4 ==> |m[i].payload| >= 4 && m[i].payload[..4] == [2, 0, 0, 0]
  {
    hide Build, Masquerade;
    GenBytes(0, 10);
    GenBytes(2, 0);
  }

  lemma GenBytes(family: byte, id: byte)
    ensures NfGen(family, id) == [family, 0, 0, id]
  {
    assert BigEndian(0, 0) == [] && BigEndian(0, 1) == [0];
    assert BigEndian(id, 2) == BigEndian(id / 256, 1) + [id % 256];
  }

  lemma TableReads(table: seq<byte>)
    ensures Bytestring(TableAttrs(table), 1) == Some(table + [0])
  {
  }

  lemma ChainReads(table: seq<byte>, chain: seq<byte>)
    ensures
      var c := ChainAttrs(table, chain);
      && Bytestring(c, 1) == Some(table + [0]) && Bytestring(c, 3) == Some(chain + [0])
      && Bytestring(c, 7) == Some([0x6e, 0x61, 0x74, 0])
      && Inside(c, 4).Some? && Number(Inside(c, 4).value, 1) == Some(4) && Number(Inside(c, 4).value, 2) == Some(100)
  {
    hide Be32, ReadUint32;
    var c := ChainAttrs(table, chain);
    var hook := [Leaf(1, Be32(4)), Leaf(2, Be32(100))];
    Be32Reads(4);
    Be32Reads(100);
    assert c[1..][0] == c[1] && c[1..][1..][0] == c[2] && c[1..][1..][1..][0] == c[3];
    assert Find(c, 3) == Find(c[1..], 3) == Some(c[1]);
    assert Find(c, 4) == Find(c[1..], 4) == Find(c[1..][1..], 4) == Some(c[2]);
    assert Find(c, 7) == Find(c[1..], 7) == Find(c[1..][1..], 7) == Find(c[1..][1..][1..], 7) == Some(c[3]);
    assert NAT + [0] == [0x6e, 0x61, 0x74, 0];
    assert hook[1..][0] == hook[1];
    assert Find(hook, 2) == Find(hook[1..], 2) == Some(hook[1]);
  }

  lemma RuleReads(table: seq<byte>, chain: seq<byte>, exprs: seq<byte>)
    ensures
      var r := RuleAttrs(table, chain, exprs);
      && Bytestring(r, 1) == Some(table + [0]) && Bytestring(r, 2) == Some(chain + [0])
      && Bytestring(r, 4) == Some(exprs)
  {
    var r := RuleAttrs(table, chain, exprs);
    assert r[1..][0] == r[1] && r[1..][1..][0] == r[2];
    assert Find(r, 2) == Find(r[1..], 2) == Some(r[1]);
    assert Find(r, 4) == Find(r[1..], 4) == Find(r[1..][1..], 4) == Some(r[2]);
  }
}
