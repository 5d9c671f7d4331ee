/** Reading and writing little-endian payloads: codecs that accept exactly what they write, and how to build them. */
module Codec {
  import opened Wrappers

  type Byte = b: nat | b < 256

  // ---- Numbers ----

  function Pow256(n: nat): nat { if n == 0 then 1 else 256 * Pow256(n - 1) }

  function LE(n: nat, v: nat): (r: seq<Byte>)
    ensures |r| == n
  {
    if n == 0 then [] else [v % 256] + LE(n - 1, v / 256)
  }

  function FromLE(bs: seq<Byte>): nat {
    if bs == [] then 0 else bs[0] + 256 * FromLE(bs[1..])
  }

  lemma {:induction false} NumberBack(n: nat, v: nat)
    requires v < Pow256(n)
    ensures FromLE(LE(n, v)) == v
  {
    if n > 0 {
      NumberBack(n - 1, v / 256);
      assert LE(n, v)[1..] == LE(n - 1, v / 256);
    }
  }

  lemma {:induction false} BytesBack(bs: seq<Byte>)
    ensures FromLE(bs) < Pow256(|bs|) && LE(|bs|, FromLE(bs)) == bs
  {
    if bs != [] {
      BytesBack(bs[1..]);
      var v := FromLE(bs);
      assert v % 256 == bs[0] && v / 256 == FromLE(bs[1..]);
      assert bs == [bs[0]] + bs[1..];
    }
  }

  // ---- Codecs ----

  /** How values of a type are written, how they are read off the front of some bytes, and which values there are. */
  datatype Codec<!T> = Codec(ok: T -> bool, write: T -> seq<Byte>, read: seq<Byte> -> Option<(T, seq<Byte>)>)

  /** What is written reads back whatever follows, and only what is written can be read. */
  ghost predicate Lawful<T(!new)>(c: Codec<T>) {
    && (forall t, rest | c.ok(t) :: c.read(c.write(t) + rest) == Some((t, rest)))
    && forall raw | c.read(raw).Some? :: Reads(c, raw, c.read(raw).value.0, c.read(raw).value.1)
  }

  predicate Reads<T>(c: Codec<T>, raw: seq<Byte>, t: T, rest: seq<Byte>) {
    c.ok(t) && raw == c.write(t) + rest
  }

  /** Read a whole payload: nothing may be left over. */
  function Decode<T>(c: Codec<T>, raw: seq<Byte>): Option<T> {
    match c.read(raw)
    case Some((t, rest)) => if rest == [] then Some(t) else None
    case None => None
  }

  /** A payload decodes to a value exactly when it is what is written for that value. */
  lemma DecodeExactly<T(!new)>(c: Codec<T>, raw: seq<Byte>, t: T)
    requires Lawful(c)
    ensures Decode(c, raw) == Some(t) <==> c.ok(t) && raw == c.write(t)
  {
    assert c.write(t) + [] == c.write(t);
    if Decode(c, raw) == Some(t) {
      assert Reads(c, raw, t, []);
    }
  }

  /** Nothing that goes on behind a payload decodes; so no strict prefix of a payload does either. */
  lemma NoExtension<T(!new)>(c: Codec<T>, raw: seq<Byte>, more: seq<Byte>)
    requires Lawful(c) && Decode(c, raw).Some? && more != []
    ensures Decode(c, raw + more).None?
  {
    var t := Decode(c, raw).value;
    DecodeExactly(c, raw, t);
    assert c.read(c.write(t) + more) == Some((t, more));
  }

  /** What comes first is known from the bytes. */
  lemma SameFirst<T(!new)>(c: Codec<T>, a: T, x: seq<Byte>, b: T, y: seq<Byte>)
    requires Lawful(c) && c.ok(a) && c.ok(b) && c.write(a) + x == c.write(b) + y
    ensures a == b && x == y
  {
    assert c.read(c.write(a) + x) == Some((a, x));
  }

  // ---- Fixed fields ----

  /** A number of one, four or eight bytes without its largest value, or any one, two, four or eight bytes. */
  datatype Width = W8 | W32 | W64 | Any8 | Any16 | Any32 | Any64

  function Size(w: Width): nat {
    match w
    case W8 => 1
    case W32 => 4
    case W64 => 8
    case Any8 => 1
    case Any16 => 2
    case Any32 => 4
    case Any64 => 8
  }

  function Limit(w: Width): nat {
    match w
    case W8 => 0xFF
    case W32 => 0xFFFF_FFFF
    case W64 => 0xFFFF_FFFF_FFFF_FFFF
    case Any8 => 0x100
    case Any16 => 0x1_0000
    case Any32 => 0x1_0000_0000
    case Any64 => 0x1_0000_0000_0000_0000
  }

  lemma LimitFits(w: Width)
    ensures Limit(w) <= Pow256(Size(w))
  {
    assert Pow256(1) == 0x100 && Pow256(2) == 0x1_0000 && Pow256(3) == 0x100_0000 && Pow256(4) == 0x1_0000_0000;
    assert Pow256(5) == 0x100_0000_0000 && Pow256(6) == 0x1_0000_0000_0000;
    assert Pow256(7) == 0x100_0000_0000_0000 && Pow256(8) == 0x1_0000_0000_0000_0000;
  }

  function Number(w: Width): Codec<nat> {
    Codec(
      (v: nat) => v < Limit(w),
      (v: nat) => LE(Size(w), v),
      (raw: seq<Byte>) =>
        if |raw| < Size(w) then None
        else
          var v := FromLE(raw[..Size(w)]);
          if v < Limit(w) then Some((v, raw[Size(w)..])) else None)
  }

  lemma NumberLawful(w: Width)
    ensures Lawful(Number(w))
  {
    var c := Number(w);
    forall t, rest | c.ok(t) ensures c.read(c.write(t) + rest) == Some((t, rest)) {
      LimitFits(w);
      NumberBack(Size(w), t);
      var raw := c.write(t) + rest;
      assert raw[..Size(w)] == LE(Size(w), t) && raw[Size(w)..] == rest;
    }
    forall raw | c.read(raw).Some? ensures Reads(c, raw, c.read(raw).value.0, c.read(raw).value.1) {
      BytesBack(raw[..Size(w)]);
      assert raw == raw[..Size(w)] + raw[Size(w)..];
    }
  }

  // ---- Building codecs ----

  /** A value, then another whose form may depend on the first. */
  function Then<A, B>(c: Codec<A>, d: A -> Codec<B>): Codec<(A, B)> {
    Codec(
      (p: (A, B)) => c.ok(p.0) && d(p.0).ok(p.1),
      (p: (A, B)) => c.write(p.0) + d(p.0).write(p.1),
      (raw: seq<Byte>) =>
        match c.read(raw)
        case None => None
        case Some((a, rest)) =>
          match d(a).read(rest)
          case None => None
          case Some((b, end)) => Some(((a, b), end)))
  }

  lemma ThenLawful<A(!new), B(!new)>(c: Codec<A>, d: A -> Codec<B>)
    requires Lawful(c) && forall a | c.ok(a) :: Lawful(d(a))
    ensures Lawful(Then(c, d))
  {
    var e := Then(c, d);
    forall t, rest | e.ok(t) ensures e.read(e.write(t) + rest) == Some((t, rest)) {
      assert Lawful(d(t.0));
      assert e.write(t) + rest == c.write(t.0) + (d(t.0).write(t.1) + rest);
    }
    forall raw | e.read(raw).Some? ensures Reads(e, raw, e.read(raw).value.0, e.read(raw).value.1) {
      var (a, middle) := c.read(raw).value;
      assert Reads(c, raw, a, middle);
      assert Lawful(d(a));
      var (b, end) := d(a).read(middle).value;
      assert Reads(d(a), middle, b, end);
      assert c.write(a) + (d(a).write(b) + end) == c.write(a) + d(a).write(b) + end;
    }
  }

  /** The same codec whatever came before. */
  function Always<A, B>(d: Codec<B>): A -> Codec<B> { (a: A) => d }

  lemma FollowedLawful<A(!new), B(!new)>(c: Codec<A>, d: Codec<B>)
    requires Lawful(c) && Lawful(d)
    ensures Lawful(Then(c, Always(d)))
  {
    ThenLawful(c, Always(d));
  }

  /** The same bytes seen as another type; `to` may refuse. */
  function As<A, B>(c: Codec<A>, to: A -> Option<B>, from: B -> A): Codec<B> {
    Codec(
      (b: B) => c.ok(from(b)) && to(from(b)).Some?,
      (b: B) => c.write(from(b)),
      (raw: seq<Byte>) =>
        match c.read(raw)
        case None => None
        case Some((a, rest)) =>
          match to(a)
          case None => None
          case Some(b) => Some((b, rest)))
  }

  ghost predicate Inverse<A(!new), B(!new)>(to: A -> Option<B>, from: B -> A) {
    (forall a | to(a).Some? :: from(to(a).value) == a) && forall b | to(from(b)).Some? :: to(from(b)).value == b
  }

  lemma AsLawful<A(!new), B(!new)>(c: Codec<A>, to: A -> Option<B>, from: B -> A)
    requires Lawful(c) && Inverse(to, from)
    ensures Lawful(As(c, to, from))
  {
    var e := As(c, to, from);
    forall raw | e.read(raw).Some? ensures Reads(e, raw, e.read(raw).value.0, e.read(raw).value.1) {
      var (a, rest) := c.read(raw).value;
      assert Reads(c, raw, a, rest);
    }
  }

  /** What is written for parts decodes to what they are seen as, if they are. */
  lemma AsDecodes<A(!new), B(!new)>(c: Codec<A>, to: A -> Option<B>, from: B -> A, a: A)
    requires Lawful(c) && c.ok(a)
    ensures Decode(As(c, to, from), c.write(a)) == to(a)
  {
    assert c.write(a) + [] == c.write(a);
    assert c.read(c.write(a) + []) == Some((a, []));
  }

  lemma AsFits<A, B>(c: Codec<A>, to: A -> Option<B>, from: B -> A, b: B)
    ensures As(c, to, from).ok(b) ==> to(from(b)).Some?
  {
  }

  /** Two parts seen as one value: its bytes are those of the parts. */
  lemma AsThen<A, B, C>(c: Codec<A>, d: A -> Codec<B>, to: ((A, B)) -> Option<C>, from: C -> (A, B), t: C)
    requires As(Then(c, d), to, from).ok(t)
    ensures to(from(t)).Some?
    ensures |As(Then(c, d), to, from).write(t)| == |c.write(from(t).0)| + |d(from(t).0).write(from(t).1)|
  {
  }

  function WriteEach<T>(cs: seq<Codec<T>>, ts: seq<T>): seq<Byte>
    requires |ts| == |cs|
  {
    if cs == [] then [] else cs[0].write(ts[0]) + WriteEach(cs[1..], ts[1..])
  }

  function ReadEach<T>(cs: seq<Codec<T>>, raw: seq<Byte>): (r: Option<(seq<T>, seq<Byte>)>)
    ensures r.Some? ==> |r.value.0| == |cs|
  {
    if cs == [] then Some(([], raw))
    else
      match cs[0].read(raw)
      case None => None
      case Some((t, rest)) =>
        match ReadEach(cs[1..], rest)
        case None => None
        case Some((ts, end)) => Some(([t] + ts, end))
  }

  predicate EachOk<T>(cs: seq<Codec<T>>, ts: seq<T>) {
    |ts| == |cs| && forall i | 0 <= i < |cs| :: cs[i].ok(ts[i])
  }

  /** One value for each of some codecs, one after the other. */
  function Each<T>(cs: seq<Codec<T>>): Codec<seq<T>> {
    Codec(
      (ts: seq<T>) => EachOk(cs, ts),
      (ts: seq<T>) => if |ts| == |cs| then WriteEach(cs, ts) else [],
      (raw: seq<Byte>) => ReadEach(cs, raw))
  }

  lemma {:induction false} EachBack<T(!new)>(cs: seq<Codec<T>>, ts: seq<T>, rest: seq<Byte>)
    requires EachOk(cs, ts) && forall i | 0 <= i < |cs| :: Lawful(cs[i])
    ensures ReadEach(cs, WriteEach(cs, ts) + rest) == Some((ts, rest))
  {
    if cs == [] {
      assert WriteEach(cs, ts) + rest == rest;
    } else {
      var c, end := cs[0], WriteEach(cs[1..], ts[1..]) + rest;
      EachBack(cs[1..], ts[1..], rest);
      Regroup(c.write(ts[0]), WriteEach(cs[1..], ts[1..]), rest);
      FirstBack(c, ts[0], end);
      assert [ts[0]] + ts[1..] == ts;
    }
  }

  lemma FirstBack<T(!new)>(c: Codec<T>, t: T, rest: seq<Byte>)
    requires Lawful(c) && c.ok(t)
    ensures c.read(c.write(t) + rest) == Some((t, rest))
  {
  }

  lemma Regroup(a: seq<Byte>, b: seq<Byte>, c: seq<Byte>)
    ensures a + b + c == a + (b + c)
  {
  }

  lemma {:induction false} EachRead<T(!new)>(cs: seq<Codec<T>>, raw: seq<Byte>)
    requires ReadEach(cs, raw).Some? && forall i | 0 <= i < |cs| :: Lawful(cs[i])
    ensures var (ts, rest) := ReadEach(cs, raw).value;
            EachOk(cs, ts) && raw == WriteEach(cs, ts) + rest
  {
    if cs != [] {
      assert Lawful(cs[0]);
      var (t, middle) := cs[0].read(raw).value;
      assert Reads(cs[0], raw, t, middle);
      EachRead(cs[1..], middle);
      var (ts, end) := ReadEach(cs[1..], middle).value;
      assert ([t] + ts)[1..] == ts;
      assert cs[0].write(t) + (WriteEach(cs[1..], ts) + end) == cs[0].write(t) + WriteEach(cs[1..], ts) + end;
    }
  }

  lemma EachLawful<T(!new)>(cs: seq<Codec<T>>)
    requires forall i | 0 <= i < |cs| :: Lawful(cs[i])
    ensures Lawful(Each(cs))
  {
    var e := Each(cs);
    forall ts, rest | e.ok(ts) ensures e.read(e.write(ts) + rest) == Some((ts, rest)) {
      EachBack(cs, ts, rest);
    }
    forall raw | e.read(raw).Some? ensures Reads(e, raw, e.read(raw).value.0, e.read(raw).value.1) {
      EachRead(cs, raw);
    }
  }

  /** So many values of one kind. */
  function Times<T>(c: Codec<T>, n: nat): Codec<seq<T>> { Each(seq(n, i => c)) }

  lemma TimesLawful<T(!new)>(c: Codec<T>, n: nat)
    requires Lawful(c)
    ensures Lawful(Times(c, n))
  {
    EachLawful(seq(n, i => c));
  }

  /** A row of numbers, one of each width. */
  function Fields(ws: seq<Width>): Codec<seq<nat>> { Each(Numbers(ws)) }

  function Numbers(ws: seq<Width>): seq<Codec<nat>> { seq(|ws|, i requires 0 <= i < |ws| => Number(ws[i])) }

  lemma FieldsLawful(ws: seq<Width>)
    ensures Lawful(Fields(ws))
  {
    forall i | 0 <= i < |ws| ensures Lawful(Number(ws[i])) { NumberLawful(ws[i]); }
    EachLawful(Numbers(ws));
  }
}
