/** Nested attributes and the masquerade batch: internal/netlink/nftable.go, with putNestAttr, dataValue and zstr of
    internal/netlink/socket.go. */
module Nftables {
  import opened Bytes
  import opened Bits
  import opened Netlink

  /** What a nested attribute buffer stands for. */
  datatype Tree = Leaf(kind: uint16, value: seq<byte>) | Nest(kind: uint16, children: seq<Tree>)

  function Kind(t: Tree): uint16
  {
    NestedKindBound(t.kind);
    if t.Leaf? then t.kind else Or(t.kind, NLA_F_NESTED)
  }

  function Value(t: Tree): seq<byte>
    decreases t
  {
    if t.Leaf? then t.value else Build(t.children)
  }

  /** putAttr and putNestAttr, one tree after the other. */
  function Build(trees: seq<Tree>): seq<byte>
    decreases trees
  {
    if trees == [] then [] else PutAttr([], Kind(trees[0]), Value(trees[0])) + Build(trees[1..])
  }

  /** Every length fits its uint16, and no type uses the flag bit itself. */
  predicate Fits(trees: seq<Tree>)
    decreases trees
  {
    trees != [] ==>
      && trees[0].kind < NLA_F_NESTED && 4 + |Value(trees[0])| < TWO_16
      && (trees[0].Nest? ==> Fits(trees[0].children))
      && Fits(trees[1..])
  }

  /** A reader that descends exactly where the nested flag is set. */
  function ReadTrees(b: seq<byte>): seq<Tree>
    decreases |b|
  {
    if |b| < 4 then []
    else
      var length, kind := AttrLength(b), AttrKind(b);
      if length < 4 || length > |b| then []
      else
        var value, next := b[4..length], Align4(length);
        var node := if kind >= NLA_F_NESTED then Nest(kind - NLA_F_NESTED, ReadTrees(value)) else Leaf(kind, value);
        [node] + (if next <= |b| then ReadTrees(b[next..]) else [])
  }

  lemma {:induction false} OrTopBit(x: nat, n: nat)
    requires x < Pow2(n)
    ensures Or(x, Pow2(n)) == x + Pow2(n)
  {
    if n == 0 {
      assert Or(0, 0) == 0;
    } else {
      assert Pow2(n) / 2 == Pow2(n - 1) && Pow2(n) % 2 == 0;
      OrTopBit(x / 2, n - 1);
    }
  }

  lemma NestedKind(kind: uint16)
    requires kind < NLA_F_NESTED
    ensures Or(kind, NLA_F_NESTED) == kind + NLA_F_NESTED
  {
    assert Pow2(15) == NLA_F_NESTED by {
      Pow2Adds(8, 7);
      assert Pow2(8) == 2 * Pow2(7) && Pow2(7) == 2 * Pow2(6) && Pow2(6) == 2 * Pow2(5);
      assert Pow2(5) == 2 * Pow2(4) && Pow2(4) == 2 * Pow2(3) && Pow2(3) == 2 * Pow2(2);
    }
    OrTopBit(kind, 15);
  }

  lemma ReadFirst(kind: uint16, value: seq<byte>, rest: seq<byte>)
    requires 4 + |value| < TWO_16
    ensures
      var node := if kind >= NLA_F_NESTED then Nest(kind - NLA_F_NESTED, ReadTrees(value)) else Leaf(kind, value);
      ReadTrees(PutAttr([], kind, value) + rest) == [node] + ReadTrees(rest)
  {
    hide PutAttr;
    AttrFields(kind, value, rest);
  }

  /** Whatever is nested in whatever, the buffer is 4-aligned and reads back as the same trees. */
  lemma {:induction false} NestedRoundTrip(trees: seq<Tree>)
    requires Fits(trees)
    ensures ReadTrees(Build(trees)) == trees && |Build(trees)| % 4 == 0
    decreases trees
  {
    hide ReadTrees, PutAttr, Or;
    if trees == [] {
      NothingToRead();
    } else {
      var t := trees[0];
      ReadFirst(Kind(t), Value(t), Build(trees[1..]));
      NestedRoundTrip(trees[1..]);
      if t.Nest? {
        NestedKind(t.kind);
        NestedRoundTrip(t.children);
      }
      assert trees == [t] + trees[1..];
    }
  }

  lemma NothingToRead()
    ensures ReadTrees([]) == []
  {
  }

  /** One more putAttr or putNestAttr call. */
  lemma {:induction false} BuildOneMore(trees: seq<Tree>, t: Tree)
    ensures PutAttr(Build(trees), Kind(t), Value(t)) == Build(trees + [t])
    ensures |Build(trees + [t])| == |Build(trees)| + Align4(4 + |Value(t)|)
    decreases |trees|
  {
    hide PutAttr;
    PutAttrAppends(Build(trees), Kind(t), Value(t));
    if trees == [] {
      assert [t][1..] == [] && [] + [t] == [t];
      assert Build([t]) == PutAttr([], Kind(t), Value(t)) + Build([]);
    } else {
      BuildOneMore(trees[1..], t);
      PutAttrAppends(Build(trees[1..]), Kind(t), Value(t));
      assert (trees + [t])[1..] == trees[1..] + [t] && (trees + [t])[0] == trees[0];
      assert Build(trees + [t]) == PutAttr([], Kind(trees[0]), Value(trees[0])) + Build(trees[1..] + [t]);
    }
  }

  lemma {:induction false} BuildConcat(a: seq<Tree>, b: seq<Tree>)
    ensures Build(a + b) == Build(a) + Build(b)
    decreases |a|
  {
    hide PutAttr;
    if a == [] {
      assert a + b == b;
    } else {
      BuildConcat(a[1..], b);
      assert (a + b)[1..] == a[1..] + b;
    }
  }

  lemma {:induction false} BuildLength(trees: seq<Tree>, bound: nat)
    requires forall i :: 0 <= i < |trees| ==> |Value(trees[i])| <= bound
    ensures |Build(trees)| <= |trees| * (bound + 8)
    decreases |trees|
  {
    hide PutAttr, Value;
    if trees != [] {
      BuildLength(trees[1..], bound);
      OneLess(|trees|, bound + 8);
      assert |Build(trees)| == Align4(4 + |Value(trees[0])|) + |Build(trees[1..])|;
    }
  }

  lemma OneLess(n: nat, k: nat)
    requires n > 0
    ensures n * k == (n - 1) * k + k
  {
  }

  // ---- Expressions ----

  function Be32(v: uint32): (b: seq<byte>)
    ensures |b| == 4
  {
    BigEndian(v, 4)
  }

  function Zstr(s: seq<byte>): seq<byte>
  {
    s + [0]
  }

  const PAYLOAD: seq<byte> := [0x70, 0x61, 0x79, 0x6c, 0x6f, 0x61, 0x64]
  const BITWISE: seq<byte> := [0x62, 0x69, 0x74, 0x77, 0x69, 0x73, 0x65]
  const CMP: seq<byte> := [0x63, 0x6d, 0x70]
  const META: seq<byte> := [0x6d, 0x65, 0x74, 0x61]
  const MASQ: seq<byte> := [0x6d, 0x61, 0x73, 0x71]
  const NAT: seq<byte> := [0x6e, 0x61, 0x74]

  function Expr(name: seq<byte>, data: seq<Tree>): Tree
  {
    Nest(1, [Leaf(1, Zstr(name)), Nest(2, data)])
  }

  function Data(v: seq<byte>): seq<Tree>
  {
    [Leaf(1, v)]
  }

  /** The interface name in a 16-byte field: longer names are cut, shorter ones padded. */
  function Name16(name: seq<byte>): (r: seq<byte>)
    ensures |r| == 16
  {
    if |name| >= 16 then name[..16] else name + Zeros(16 - |name|)
  }

  const PAYLOAD_DATA: seq<Tree> := [Leaf(1, Be32(1)), Leaf(2, Be32(1)), Leaf(3, Be32(12)), Leaf(4, Be32(4))]
  const META_DATA: seq<Tree> := [Leaf(1, Be32(2)), Leaf(2, Be32(7))]

  function BitwiseData(mask: seq<byte>): seq<Tree>
  {
    [Leaf(1, Be32(1)), Leaf(2, Be32(1)), Leaf(3, Be32(4)), Nest(4, Data(mask)), Nest(5, Data(Zeros(4))),
      Leaf(6, Be32(0))]
  }

  function CmpData(register: uint32, value: seq<byte>): seq<Tree>
  {
    [Leaf(1, Be32(register)), Leaf(2, Be32(0)), Nest(3, Data(value))]
  }

  /** "ip saddr & mask == ip, oifname == name, masquerade". To4 yields 4 bytes or none. */
  function Masquerade(ip: seq<byte>, mask: seq<byte>, name: seq<byte>): (r: seq<Tree>)
    ensures |r| == 6
  {
    [Expr(PAYLOAD, PAYLOAD_DATA), Expr(BITWISE, BitwiseData(mask)), Expr(CMP, CmpData(1, ip)),
     Expr(META, META_DATA), Expr(CMP, CmpData(2, Name16(name))), Expr(MASQ, [])]
  }

  /** An attribute buffer under construction, with the trees it holds. */
  method Put(buf: seq<byte>, ghost trees: seq<Tree>, kind: uint16, value: seq<byte>)
    returns (b: seq<byte>, ghost after: seq<Tree>)
    requires buf == Build(trees)
    ensures after == trees + [Leaf(kind, value)] && b == Build(after)
  {
    BuildOneMore(trees, Leaf(kind, value));
    return PutAttr(buf, kind, value), trees + [Leaf(kind, value)];
  }

  method PutNest(buf: seq<byte>, ghost trees: seq<Tree>, kind: uint16, nested: seq<byte>, ghost children: seq<Tree>)
    returns (b: seq<byte>, ghost after: seq<Tree>)
    requires buf == Build(trees) && nested == Build(children)
    ensures after == trees + [Nest(kind, children)] && b == Build(after)
  {
    BuildOneMore(trees, Nest(kind, children));
    return PutNestAttr(buf, kind, nested), trees + [Nest(kind, children)];
  }

  method DataValue(v: seq<byte>) returns (b: seq<byte>)
    ensures b == Build(Data(v))
  {
    ghost var t;
    b, t := Put([], [], 1, v);
    assert t == Data(v);
  }

  method WrapExpr(name: seq<byte>, data: seq<byte>, ghost trees: seq<Tree>) returns (b: seq<byte>)
    requires data == Build(trees)
    ensures b == Build([Expr(name, trees)])
  {
    hide Build;
    EmptyBuild();
    ghost var t, u;
    b, t := Put([], [], 1, Zstr(name));
    b, t := PutNest(b, t, 2, data, trees);
    assert t == Expr(name, trees).children;
    b, u := PutNest([], [], 1, b, t);
    assert u == [Expr(name, trees)];
  }

  lemma EmptyBuild()
    ensures Build([]) == []
  {
  }

  method ExprPayloadIPv4Saddr() returns (b: seq<byte>)
    ensures b == Build([Expr(PAYLOAD, PAYLOAD_DATA)])
  {
    hide Build, Be32;
    EmptyBuild();
    ghost var t;
    b, t := Put([], [], 1, Be32(1));
    b, t := Put(b, t, 2, Be32(1));
    b, t := Put(b, t, 3, Be32(12));
    b, t := Put(b, t, 4, Be32(4));
    assert t == PAYLOAD_DATA;
    b := WrapExpr(PAYLOAD, b, t);
  }

  method ExprBitwiseMask(mask: seq<byte>) returns (b: seq<byte>)
    ensures b == Build([Expr(BITWISE, BitwiseData(mask))])
  {
    hide Build, Be32;
    EmptyBuild();
    ghost var t;
    b, t := Put([], [], 1, Be32(1));
    b, t := Put(b, t, 2, Be32(1));
    b, t := Put(b, t, 3, Be32(4));
    var value := DataValue(mask);
    b, t := PutNest(b, t, 4, value, Data(mask));
    value := DataValue(Zeros(4));
    b, t := PutNest(b, t, 5, value, Data(Zeros(4)));
    b, t := Put(b, t, 6, Be32(0));
    assert t == BitwiseData(mask);
    b := WrapExpr(BITWISE, b, t);
  }

  method ExprCmp(register: uint32, value: seq<byte>) returns (b: seq<byte>)
    ensures b == Build([Expr(CMP, CmpData(register, value))])
  {
    hide Build, Be32;
    EmptyBuild();
    ghost var t;
    b, t := Put([], [], 1, Be32(register));
    b, t := Put(b, t, 2, Be32(0));
    var nested := DataValue(value);
    b, t := PutNest(b, t, 3, nested, Data(value));
    assert t == CmpData(register, value);
    b := WrapExpr(CMP, b, t);
  }

  method ExprMetaOIFName() returns (b: seq<byte>)
    ensures b == Build([Expr(META, META_DATA)])
  {
    hide Build, Be32;
    EmptyBuild();
    ghost var t;
    b, t := Put([], [], 1, Be32(2));
    b, t := Put(b, t, 2, Be32(7));
    assert t == META_DATA;
    b := WrapExpr(META, b, t);
  }

  /** The expression list of buildNewMasqRuleMsg. */
  method MasqueradeExprs(ip: seq<byte>, mask: seq<byte>, name: seq<byte>) returns (exprs: seq<byte>)
    ensures exprs == Build(Masquerade(ip, mask, name))
  {
    hide Build, Be32, Data, Expr;
    EmptyBuild();
    ghost var m := Masquerade(ip, mask, name);
    exprs := ExprPayloadIPv4Saddr();
    var b := ExprBitwiseMask(mask);
    BuildConcat([m[0]], [m[1]]);
    exprs := exprs + b;
    b := ExprCmp(1, ip);
    assert [m[0], m[1]] == [m[0]] + [m[1]];
    BuildConcat([m[0], m[1]], [m[2]]);
    exprs := exprs + b;
    b := ExprMetaOIFName();
    assert [m[0], m[1], m[2]] == [m[0], m[1]] + [m[2]];
    BuildConcat([m[0], m[1], m[2]], [m[3]]);
    exprs := exprs + b;
    b := ExprCmp(2, Name16(name));
    assert [m[0], m[1], m[2], m[3]] == [m[0], m[1], m[2]] + [m[3]];
    BuildConcat([m[0], m[1], m[2], m[3]], [m[4]]);
    exprs := exprs + b;
    b := WrapExpr(MASQ, [], []);
    assert [m[0], m[1], m[2], m[3], m[4]] == [m[0], m[1], m[2], m[3]] + [m[4]];
    BuildConcat([m[0], m[1], m[2], m[3], m[4]], [m[5]]);
    exprs := exprs + b;
    assert m == [m[0], m[1], m[2], m[3], m[4]] + [m[5]];
  }

  // ---- Messages ----

  const NLM_F_REQUEST: uint16 := 0x1
  const NLM_F_ACK: uint16 := 0x4
  const CREATE_EXCL: uint16 := 0x605
  const CREATE_APPEND: uint16 := 0xC05
  const BATCH_BEGIN: uint16 := 0x10
  const BATCH_END: uint16 := 0x11
  const NFNL_SUBSYS_NFTABLES: nat := 10

  function NfGen(family: byte, resID: uint16): (b: seq<byte>)
    ensures |b| == 4
  {
    [family, 0] + BigEndian(resID, 2)
  }

  /** nftMsg: (subsystem << 8) | type, with a type below 256. */
  function NftMsg(sequence: uint32, kind: byte, flags: uint16, attrs: seq<byte>): Msg
  {
    Msg(NFNL_SUBSYS_NFTABLES * 256 + kind, flags, sequence, NfGen(2, 0) + attrs)
  }

  function BatchMsg(sequence: uint32, kind: uint16): Msg
  {
    Msg(kind, NLM_F_REQUEST, sequence, NfGen(0, NFNL_SUBSYS_NFTABLES))
  }

  function TableAttrs(table: seq<byte>): seq<Tree>
  {
    [Leaf(1, Zstr(table))]
  }

  function ChainAttrs(table: seq<byte>, chain: seq<byte>): seq<Tree>
  {
    [Leaf(1, Zstr(table)), Leaf(3, Zstr(chain)), Nest(4, [Leaf(1, Be32(4)), Leaf(2, Be32(100))]), Leaf(7, Zstr(NAT))]
  }

  /** The expressions go in through putAttr: their list carries no nested flag. */
  function RuleAttrs(table: seq<byte>, chain: seq<byte>, exprs: seq<byte>): seq<Tree>
  {
    [Leaf(1, Zstr(table)), Leaf(2, Zstr(chain)), Leaf(4, exprs)]
  }

  datatype Spec = Spec(table: seq<byte>, chain: seq<byte>, ip: seq<byte>, mask: seq<byte>, name: seq<byte>)

  function MasqueradeMessages(spec: Spec): (r: seq<Msg>)
    ensures |r| == 5
  {
    [BatchMsg(1, BATCH_BEGIN),
     NftMsg(2, 0, CREATE_EXCL, Build(TableAttrs(spec.table))),
     NftMsg(3, 3, CREATE_EXCL, Build(ChainAttrs(spec.table, spec.chain))),
     NftMsg(4, 6, CREATE_APPEND,
       Build(RuleAttrs(spec.table, spec.chain, Build(Masquerade(spec.ip, spec.mask, spec.name))))),
     BatchMsg(5, BATCH_END)]
  }

  method BuildNewTableMsg(sequence: uint32, table: seq<byte>) returns (b: seq<byte>)
    ensures b == NlMsg(NftMsg(sequence, 0, CREATE_EXCL, Build(TableAttrs(table))))
  {
    hide Build;
    EmptyBuild();
    ghost var t;
    b, t := Put([], [], 1, Zstr(table));
    assert t == TableAttrs(table);
    b := NlMsg(NftMsg(sequence, 0, CREATE_EXCL, b));
  }

  method BuildNewChainMsg(sequence: uint32, table: seq<byte>, chain: seq<byte>) returns (b: seq<byte>)
    ensures b == NlMsg(NftMsg(sequence, 3, CREATE_EXCL, Build(ChainAttrs(table, chain))))
  {
    hide Build, Be32, NlMsg;
    EmptyBuild();
    ghost var h, t;
    var hook;
    hook, h := Put([], [], 1, Be32(4));
    hook, h := Put(hook, h, 2, Be32(100));
    b, t := Put([], [], 1, Zstr(table));
    b, t := Put(b, t, 3, Zstr(chain));
    b, t := PutNest(b, t, 4, hook, h);
    b, t := Put(b, t, 7, Zstr(NAT));
    assert h == [Leaf(1, Be32(4)), Leaf(2, Be32(100))];
    assert t == ChainAttrs(table, chain);
    b := NlMsg(NftMsg(sequence, 3, CREATE_EXCL, b));
  }

  method BuildNewMasqRuleMsg(sequence: uint32, spec: Spec) returns (b: seq<byte>)
    ensures b == NlMsg(NftMsg(sequence, 6, CREATE_APPEND,
                              Build(RuleAttrs(spec.table, spec.chain,
                                Build(Masquerade(spec.ip, spec.mask, spec.name))))))
  {
    hide Build, Masquerade, NlMsg;
    EmptyBuild();
    var exprs := MasqueradeExprs(spec.ip, spec.mask, spec.name);
    ghost var t;
    b, t := Put([], [], 1, Zstr(spec.table));
    b, t := Put(b, t, 2, Zstr(spec.chain));
    b, t := Put(b, t, 4, exprs);
    assert t == RuleAttrs(spec.table, spec.chain, exprs);
    b := NlMsg(NftMsg(sequence, 6, CREATE_APPEND, b));
  }

  /** The packet that ApplyMasquerade sends. */
  method MasqueradePacket(spec: Spec) returns (packet: seq<byte>)
    ensures packet == Batch(MasqueradeMessages(spec))
  {
    hide NlMsg, Build, NftMsg, BatchMsg;
    var m := MasqueradeMessages(spec);
    FiveMessages(m);
    var next := BuildNewTableMsg(2, spec.table);
    packet := NlMsg(BatchMsg(1, BATCH_BEGIN)) + next;
    next := BuildNewChainMsg(3, spec.table, spec.chain);
    packet := packet + next;
    next := BuildNewMasqRuleMsg(4, spec);
    packet := packet + next;
    packet := packet + NlMsg(BatchMsg(5, BATCH_END));
  }

  lemma FiveMessages(m: seq<Msg>)
    requires |m| == 5
    ensures Batch(m) == NlMsg(m[0]) + NlMsg(m[1]) + NlMsg(m[2]) + NlMsg(m[3]) + NlMsg(m[4])
  {
    hide NlMsg;
    assert m[4..][1..] == [] && Batch(m[4..][1..]) == [];
    assert Batch(m[4..]) == NlMsg(m[4]);
    assert m[3..][1..] == m[4..] && Batch(m[3..]) == NlMsg(m[3]) + Batch(m[4..]);
    assert m[2..][1..] == m[3..] && Batch(m[2..]) == NlMsg(m[2]) + Batch(m[3..]);
    assert m[1..][1..] == m[2..] && Batch(m[1..]) == NlMsg(m[1]) + Batch(m[2..]);
  }

  predicate SpecFits(spec: Spec)
  {
    5 + |spec.table| < TWO_16 && 5 + |spec.chain| < TWO_16 && |spec.ip| <= 4 && |spec.mask| <= 4
  }

  lemma ExprFits(name: seq<byte>, data: seq<Tree>)
    requires |name| <= 7 && |data| <= 6 && Fits(data) && forall i :: 0 <= i < |data| ==> |Value(data[i])| <= 24
    ensures Fits([Expr(name, data)]) && |Value(Expr(name, data))| <= 416
  {
    hide PutAttr, Fits, Build;
    BuildLength(data, 24);
    var first, second := Leaf(1, Zstr(name)), Nest(2, data);
    var inner := [first, second];
    FitsOne(second);
    FitsOne(first);
    FitsCons(first, [second]);
    assert [first] + [second] == inner;
    BuildLength(inner, 200);
    FitsOne(Expr(name, data));
  }

  lemma FitsOne(t: Tree)
    requires t.kind < NLA_F_NESTED && 4 + |Value(t)| < TWO_16 && (t.Nest? ==> Fits(t.children))
    ensures Fits([t])
  {
    assert [t][1..] == [];
  }

  lemma {:induction false} FitsCons(t: Tree, rest: seq<Tree>)
    requires Fits([t]) && Fits(rest)
    ensures Fits([t] + rest)
  {
    assert ([t] + rest)[1..] == rest;
  }

  lemma {:induction false} FitsAll(trees: seq<Tree>)
    requires forall i :: 0 <= i < |trees| ==> Fits([trees[i]])
    ensures Fits(trees)
  {
    if trees != [] {
      FitsAll(trees[1..]);
      FitsCons(trees[0], trees[1..]);
      assert trees == [trees[0]] + trees[1..];
    }
  }

  lemma LeafFits(kind: uint16, value: seq<byte>)
    requires kind < NLA_F_NESTED && 4 + |value| < TWO_16
    ensures Fits([Leaf(kind, value)])
  {
    FitsOne(Leaf(kind, value));
  }

  lemma DataFits(kind: uint16, v: seq<byte>)
    requires kind < NLA_F_NESTED && |v| <= 16
    ensures Fits([Nest(kind, Data(v))]) && |Value(Nest(kind, Data(v)))| <= 24
  {
    hide PutAttr, Build, Fits;
    LeafFits(1, v);
    BuildLength(Data(v), 16);
    FitsOne(Nest(kind, Data(v)));
  }

  /** Whatever the names and addresses, the expression list fits. */
  lemma MasqueradeFits(ip: seq<byte>, mask: seq<byte>, name: seq<byte>)
    requires |ip| <= 4 && |mask| <= 4
    ensures Fits(Masquerade(ip, mask, name)) && |Build(Masquerade(ip, mask, name))| <= 2544
  {
    hide Fits, Build, Be32, Data, Expr;
    forall kind: uint16, v: uint32 | kind < NLA_F_NESTED ensures Fits([Leaf(kind, Be32(v))]) {
      LeafFits(kind, Be32(v));
    }
    DataFits(4, mask);
    DataFits(5, Zeros(4));
    DataFits(3, ip);
    DataFits(3, Name16(name));
    FitsAll(PAYLOAD_DATA);
    FitsAll(BitwiseData(mask));
    FitsAll(CmpData(1, ip));
    FitsAll(CmpData(2, Name16(name)));
    FitsAll(META_DATA);
    FitsAll([]);
    ExprFits(PAYLOAD, PAYLOAD_DATA);
    ExprFits(BITWISE, BitwiseData(mask));
    ExprFits(CMP, CmpData(1, ip));
    ExprFits(META, META_DATA);
    ExprFits(CMP, CmpData(2, Name16(name)));
    ExprFits(MASQ, []);
    FitsAll(Masquerade(ip, mask, name));
    BuildLength(Masquerade(ip, mask, name), 416);
  }

  lemma AttrsFit(spec: Spec)
    requires SpecFits(spec)
    ensures Fits(TableAttrs(spec.table)) && Fits(ChainAttrs(spec.table, spec.chain))
    ensures Fits(RuleAttrs(spec.table, spec.chain, Build(Masquerade(spec.ip, spec.mask, spec.name))))
  {
    hide Fits, Build, Be32, Masquerade;
    MasqueradeFits(spec.ip, spec.mask, spec.name);
    LeafFits(1, Zstr(spec.table));
    LeafFits(2, Zstr(spec.chain));
    LeafFits(3, Zstr(spec.chain));
    LeafFits(4, Build(Masquerade(spec.ip, spec.mask, spec.name)));
    LeafFits(7, Zstr(NAT));
    var hook := [Leaf(1, Be32(4)), Leaf(2, Be32(100))];
    LeafFits(1, Be32(4));
    LeafFits(2, Be32(100));
    FitsAll(hook);
    BuildLength(hook, 4);
    FitsOne(Nest(4, hook));
    FitsAll(TableAttrs(spec.table));
    FitsAll(ChainAttrs(spec.table, spec.chain));
    FitsAll(RuleAttrs(spec.table, spec.chain, Build(Masquerade(spec.ip, spec.mask, spec.name))));
  }

  /** One nftables message, from its attributes to the wire and back. */
  lemma NftMsgReads(sequence: uint32, kind: byte, flags: uint16, trees: seq<Tree>)
    requires Fits(trees) && |trees| <= 4
    ensures Sendable(NftMsg(sequence, kind, flags, Build(trees)))
    ensures ReadTrees(NftMsg(sequence, kind, flags, Build(trees)).payload[4..]) == trees
  {
    hide Fits, Build, ReadTrees;
    NestedRoundTrip(trees);
    ValuesBounded(trees);
    BuildLength(trees, TWO_16);
    assert (NfGen(2, 0) + Build(trees))[4..] == Build(trees);
  }

  lemma {:induction false} ValuesBounded(trees: seq<Tree>)
    requires Fits(trees)
    ensures forall i :: 0 <= i < |trees| ==> |Value(trees[i])| <= TWO_16
  {
    if trees != [] {
      ValuesBounded(trees[1..]);
      assert forall i :: 1 <= i < |trees| ==> trees[i] == trees[1..][i - 1];
    }
  }

  predicate AsksForAck(m: Msg)
  {
    (m.flags / NLM_F_ACK) % 2 == 1
  }

  /** The kernel's reader gets the five messages back from the one packet, every attribute and nested expression as
      built, and the acknowledgements awaited (2, 3, 4) are those of exactly the messages that ask for one. */
  lemma MasqueradeReads(spec: Spec)
    requires SpecFits(spec)
    ensures
      var m := MasqueradeMessages(spec);
      var exprs := Build(Masquerade(spec.ip, spec.mask, spec.name));
      && Messages(Batch(m)) == Split(m, true)
      && ReadTrees(m[1].payload[4..]) == TableAttrs(spec.table)
      && ReadTrees(m[2].payload[4..]) == ChainAttrs(spec.table, spec.chain)
      && ReadTrees(m[3].payload[4..]) == RuleAttrs(spec.table, spec.chain, exprs)
      && ReadTrees(exprs) == Masquerade(spec.ip, spec.mask, spec.name)
      && forall i :: 0 <= i < |m| ==> (AsksForAck(m[i]) <==> m[i].sequence in {2, 3, 4})
  {
    hide Fits, Build, ReadTrees, Masquerade, Messages, TableAttrs, ChainAttrs, RuleAttrs;
    AttrsFit(spec);
    MasqueradeFits(spec.ip, spec.mask, spec.name);
    TreeCounts(spec);
    NftMsgReads(2, 0, CREATE_EXCL, TableAttrs(spec.table));
    NftMsgReads(3, 3, CREATE_EXCL, ChainAttrs(spec.table, spec.chain));
    NftMsgReads(4, 6, CREATE_APPEND,
      RuleAttrs(spec.table, spec.chain, Build(Masquerade(spec.ip, spec.mask, spec.name))));
    NestedRoundTrip(Masquerade(spec.ip, spec.mask, spec.name));
    BatchSplits(MasqueradeMessages(spec));
  }

  lemma TreeCounts(spec: Spec)
    ensures |TableAttrs(spec.table)| <= 4 && |ChainAttrs(spec.table, spec.chain)| <= 4
    ensures |RuleAttrs(spec.table, spec.chain, Build(Masquerade(spec.ip, spec.mask, spec.name)))| <= 4
  {
  }
}
