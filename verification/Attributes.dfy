/**
 The attribute parser of `RADIUSPacket(RawPacketsPoolItem &&)` against the attribute format of
 section 5 of RFC 2865: type octet, length octet (covering all three parts), value octets.
 */
module Attributes {
  import opened Bytes
  import opened Frames

  type AvpStorage = map<byte, seq<byte>>

  datatype Attribute = Attribute(kind: byte, value: seq<byte>)

  /** The octets from the first octet of the RADIUS header on, including those behind the packet. */
  type Memory = nat -> byte

  // ---- The wire format

  function LengthOctet(n: nat): byte {
    (n + 2) % 0x100
  }

  /** One attribute on the wire.  The length octet wraps, so 254 and 255 value octets read 0 and 1. */
  function Encode(a: Attribute): seq<byte> {
    [a.kind, LengthOctet(|a.value|)] + a.value
  }

  function EncodeAll(attrs: seq<Attribute>): seq<byte> {
    if attrs == [] then [] else Encode(attrs[0]) + EncodeAll(attrs[1..])
  }

  /** The format of section 5 of RFC 2865: type, length of the whole attribute, value. */
  lemma EncodeLayout(a: Attribute)
    requires |a.value| <= 253
    ensures var e := Encode(a);
            && |e| == |a.value| + 2 && e[0] == a.kind && e[1] == |e|
            && forall i: nat | i < |a.value| :: e[i + 2] == a.value[i]
  {
  }

  ghost predicate Holds(mem: Memory, at: nat, octets: seq<byte>) {
    forall i: nat | i < |octets| :: mem(at + i) == octets[i]
  }

  /** Attributes that RFC 2865 can express with a non-empty value. */
  ghost predicate Rfc2865(attrs: seq<Attribute>) {
    forall a | a in attrs :: 1 <= |a.value| <= 253
  }

  // ---- What the parser accepts

  /** The octets of an attribute behind its length octet: `length -= 2` in a `uint8_t`. */
  function ValueLength(length: byte): byte {
    Sub8(length, 2)
  }

  function Slice(mem: Memory, at: nat, n: nat): seq<byte> {
    seq(n, i requires 0 <= i < n => mem(at + i))
  }

  /** `attrs`: attributes read; `ok`: left without the failing break; `end`: final offset;
      `reach`: one past the last octet that was read. */
  datatype Scan = Scan(attrs: seq<Attribute>, ok: bool, end: nat, reach: nat)

  /** What the loop reads from offset `at` of a packet of `size` octets. */
  function ScanFrom(mem: Memory, size: nat, at: nat): (s: Scan)
    ensures s.end <= if size <= at then at else size + 254
    ensures at <= s.end && at <= s.reach
    ensures !s.ok ==> s.end <= size && (at <= size ==> s.reach <= size + 254)
    ensures s.ok ==> s.reach == s.end
    decreases size - at
  {
    if size <= at then Scan([], true, at, at)
    else if size == at + 1 then Scan([], false, at, at)
    else if size == at + 2 then Scan([], false, at + 1, at + 1)
    else
      var length := mem(at + 1);
      if size < at + length then Scan([], false, at + 2, at + 2)
      else
        var n := ValueLength(length);
        var rest := ScanFrom(mem, size, at + 2 + n);
        Scan([Attribute(mem(at), Slice(mem, at + 2, n))] + rest.attrs, rest.ok, rest.end, rest.reach)
  }

  /** The scan of a packet of which `read` has been read and `rest` is to come. */
  function Resume(read: seq<Attribute>, rest: Scan): Scan {
    rest.(attrs := read + rest.attrs)
  }

  /** Whether an iteration that starts at `at` ends in the failing break. */
  predicate Breaks(mem: Memory, size: nat, at: nat) {
    size <= at + 2 || size < at + mem(at + 1)
  }

  function AttributeAt(mem: Memory, at: nat): Attribute {
    Attribute(mem(at), Slice(mem, at + 2, ValueLength(mem(at + 1))))
  }

  lemma Iteration(mem: Memory, size: nat, at: nat, read: seq<Attribute>)
    requires at < size
    ensures var s := Resume(read, ScanFrom(mem, size, at));
            if Breaks(mem, size, at)
            then s.attrs == read && !s.ok && s.end == if size == at + 1 then at else if size == at + 2 then at + 1 else at + 2
            else s == Resume(read + [AttributeAt(mem, at)], ScanFrom(mem, size, at + 2 + ValueLength(mem(at + 1))))
  {
    assert read + [] == read;
    if !Breaks(mem, size, at) {
      var a := AttributeAt(mem, at);
      var rest := ScanFrom(mem, size, at + 2 + ValueLength(mem(at + 1)));
      assert read + ([a] + rest.attrs) == read + [a] + rest.attrs;
    }
  }

  lemma EmptyResume(s: Scan)
    ensures Resume([], s) == s
  {
    assert [] + s.attrs == s.attrs;
  }

  /** Memory from `at` on consists of the attributes `attrs` up to the end of the packet.  The last
      value is not empty, and only a last attribute with a wrapped length octet may cross the end. */
  ghost predicate Tiles(mem: Memory, size: nat, at: nat, attrs: seq<Attribute>)
    decreases |attrs|
  {
    if attrs == [] then size <= at
    else
      var a := attrs[0];
      var next := at + 2 + |a.value|;
      && |a.value| <= 255
      && Holds(mem, at, Encode(a))
      && at + 3 <= size
      && (|a.value| <= 253 ==> next <= size)
      && Tiles(mem, size, next, attrs[1..])
  }

  lemma HoldsAttribute(mem: Memory, at: nat, a: Attribute)
    requires |a.value| <= 255
    ensures Holds(mem, at, Encode(a)) <==>
            mem(at) == a.kind && ValueLength(mem(at + 1)) == |a.value| && Slice(mem, at + 2, |a.value|) == a.value
  {
    var e := Encode(a);
    if Holds(mem, at, e) {
      assert mem(at + 0) == e[0] && mem(at + 1) == e[1];
      forall i: nat | i < |a.value| ensures Slice(mem, at + 2, |a.value|)[i] == a.value[i] {
        assert mem(at + (i + 2)) == e[i + 2];
      }
    }
    if mem(at) == a.kind && ValueLength(mem(at + 1)) == |a.value| && Slice(mem, at + 2, |a.value|) == a.value {
      forall i: nat | i < |e| ensures mem(at + i) == e[i] {
        if i >= 2 {
          assert mem(at + i) == Slice(mem, at + 2, |a.value|)[i - 2];
        }
      }
    }
  }

  /** Parser exactness, first half: what the loop returns without its failing break tiles the packet. */
  lemma {:induction false} ScanTiles(mem: Memory, size: nat, at: nat)
    requires ScanFrom(mem, size, at).ok
    ensures Tiles(mem, size, at, ScanFrom(mem, size, at).attrs)
    decreases size - at
  {
    if size > at {
      var s := ScanFrom(mem, size, at);
      var n := ValueLength(mem(at + 1));
      ScanTiles(mem, size, at + 2 + n);
      HoldsAttribute(mem, at, s.attrs[0]);
      assert s.attrs[1..] == ScanFrom(mem, size, at + 2 + n).attrs;
    }
  }

  /** Parser exactness, second half: a tiled packet is read without the failing break, the tiling is
      the one that is returned, and the loop ends where it ends. */
  lemma {:induction false} TilesScan(mem: Memory, size: nat, at: nat, attrs: seq<Attribute>)
    requires Tiles(mem, size, at, attrs)
    ensures var s := ScanFrom(mem, size, at);
            s.ok && s.attrs == attrs && s.end == s.reach == at + |EncodeAll(attrs)|
    decreases |attrs|
  {
    if attrs != [] {
      var a := attrs[0];
      var next := at + 2 + |a.value|;
      HoldsAttribute(mem, at, a);
      TilesScan(mem, size, next, attrs[1..]);
      assert AttributeAt(mem, at) == a && !Breaks(mem, size, at);
      Iteration(mem, size, at, []);
      EmptyResume(ScanFrom(mem, size, at));
      assert ScanFrom(mem, size, at) == Resume([a], ScanFrom(mem, size, next));
      assert [a] + attrs[1..] == attrs;
    }
  }

  /** Both halves: the loop avoids the failing break exactly when the packet can be tiled. */
  lemma ScanExact(mem: Memory, size: nat, at: nat)
    ensures ScanFrom(mem, size, at).ok <==> exists attrs :: Tiles(mem, size, at, attrs)
    ensures forall attrs :: Tiles(mem, size, at, attrs) ==> attrs == ScanFrom(mem, size, at).attrs
  {
    if ScanFrom(mem, size, at).ok {
      ScanTiles(mem, size, at);
      assert exists attrs :: Tiles(mem, size, at, attrs);
    }
    forall attrs | Tiles(mem, size, at, attrs)
      ensures ScanFrom(mem, size, at).ok && attrs == ScanFrom(mem, size, at).attrs
    {
      TilesScan(mem, size, at, attrs);
    }
  }

  /** Length octets that RFC 2865 allows: every attribute has at most 253 value octets. */
  ghost predicate NoShortLength(attrs: seq<Attribute>) {
    forall a | a in attrs :: |a.value| <= 253
  }

  /** With length octets of at least 2, tiling means that the octets up to the end of the packet are
      exactly the concatenation of the attributes, and the last value is not empty. */
  lemma {:induction false} TilesConcatenation(mem: Memory, size: nat, at: nat, attrs: seq<Attribute>)
    requires at <= size && NoShortLength(attrs)
    ensures Tiles(mem, size, at, attrs) <==>
            && Holds(mem, at, EncodeAll(attrs))
            && at + |EncodeAll(attrs)| == size
            && (attrs != [] ==> attrs[|attrs| - 1].value != [])
    decreases |attrs|
  {
    if attrs != [] {
      var a, rest := attrs[0], attrs[1..];
      var next := at + |Encode(a)|;
      HoldsConcat(mem, at, Encode(a), EncodeAll(rest));
      assert forall b | b in rest :: b in attrs;
      if next <= size {
        TilesConcatenation(mem, size, next, rest);
      }
      assert a in attrs && |a.value| <= 253;
      if rest != [] {
        assert rest[|rest| - 1] == attrs[|attrs| - 1];
        assert |EncodeAll(rest)| == |Encode(rest[0])| + |EncodeAll(rest[1..])|;
      }
    }
  }

  /** The octets up to the end of the packet are whole attributes with length octets of at least 2, the
      last one with a non-empty value. */
  ghost predicate WholeAttributes(mem: Memory, size: nat, at: nat, attrs: seq<Attribute>) {
    && NoShortLength(attrs)
    && Holds(mem, at, EncodeAll(attrs))
    && at + |EncodeAll(attrs)| == size
    && (attrs != [] ==> attrs[|attrs| - 1].value != [])
  }

  /** Every length octet that the loop reaches is at least 2. */
  predicate LongLengths(mem: Memory, size: nat, at: nat)
    decreases size - at
  {
    size < at + 3 || (mem(at + 1) >= 2 && (size < at + mem(at + 1) || LongLengths(mem, size, at + mem(at + 1))))
  }

  lemma NoShortCons(a: Attribute, rest: seq<Attribute>)
    ensures NoShortLength([a] + rest) <==> |a.value| <= 253 && NoShortLength(rest)
  {
    assert a in [a] + rest;
    assert forall b | b in rest :: b in [a] + rest;
  }

  lemma {:induction false} LongLengthsParsed(mem: Memory, size: nat, at: nat)
    requires ScanFrom(mem, size, at).ok
    ensures LongLengths(mem, size, at) <==> NoShortLength(ScanFrom(mem, size, at).attrs)
    decreases size - at
  {
    if size > at {
      var next := at + 2 + ValueLength(mem(at + 1));
      LongLengthsParsed(mem, size, next);
      NoShortCons(AttributeAt(mem, at), ScanFrom(mem, size, next).attrs);
      assert mem(at + 1) >= 2 ==> next == at + mem(at + 1);
    }
  }

  /** Whether it fails or not, a parse that meets no length octet below 2 reads nothing behind the packet. */
  lemma {:induction false} LongLengthsStayInside(mem: Memory, size: nat, at: nat)
    requires at <= size && LongLengths(mem, size, at)
    ensures ScanFrom(mem, size, at).reach <= size
    decreases size - at
  {
    if at + 3 <= size && at + mem(at + 1) <= size {
      LongLengthsStayInside(mem, size, at + mem(at + 1));
    }
  }

  /** Parser exactness: the loop meets no length octet below 2 and avoids the failing break exactly when the
      packet is empty or consists of whole attributes whose last has a non-empty value; these are then what
      it returns, and it reads up to the end of the packet and no further. */
  lemma ParserExact(mem: Memory, size: nat, at: nat)
    requires at <= size
    ensures var s := ScanFrom(mem, size, at);
            && (s.ok && LongLengths(mem, size, at) <==> exists attrs :: WholeAttributes(mem, size, at, attrs))
            && forall attrs :: WholeAttributes(mem, size, at, attrs) ==> s == Scan(attrs, true, size, size)
  {
    var s := ScanFrom(mem, size, at);
    if s.ok {
      LongLengthsParsed(mem, size, at);
      if LongLengths(mem, size, at) {
        ScanTiles(mem, size, at);
        TilesConcatenation(mem, size, at, s.attrs);
        assert WholeAttributes(mem, size, at, s.attrs);
      }
    }
    forall attrs | WholeAttributes(mem, size, at, attrs)
      ensures s == Scan(attrs, true, size, size) && LongLengths(mem, size, at)
    {
      TilesConcatenation(mem, size, at, attrs);
      TilesScan(mem, size, at, attrs);
      LongLengthsParsed(mem, size, at);
    }
  }

  // ---- Round trips

  lemma HoldsConcat(mem: Memory, at: nat, a: seq<byte>, b: seq<byte>)
    ensures Holds(mem, at, a + b) <==> Holds(mem, at, a) && Holds(mem, at + |a|, b)
  {
    if Holds(mem, at, a + b) {
      forall i: nat | i < |a| ensures mem(at + i) == a[i] {
        assert mem(at + i) == (a + b)[i];
      }
      forall i: nat | i < |b| ensures mem(at + |a| + i) == b[i] {
        assert mem(at + (|a| + i)) == (a + b)[|a| + i];
      }
    }
    if Holds(mem, at, a) && Holds(mem, at + |a|, b) {
      forall i: nat | i < |a + b| ensures mem(at + i) == (a + b)[i] {
        if i >= |a| {
          assert mem(at + |a| + (i - |a|)) == b[i - |a|];
        }
      }
    }
  }

  lemma {:induction false} EncodedTiles(mem: Memory, at: nat, attrs: seq<Attribute>)
    requires Rfc2865(attrs)
    requires Holds(mem, at, EncodeAll(attrs))
    ensures Tiles(mem, at + |EncodeAll(attrs)|, at, attrs)
    decreases |attrs|
  {
    if attrs != [] {
      HoldsConcat(mem, at, Encode(attrs[0]), EncodeAll(attrs[1..]));
      EncodedTiles(mem, at + |Encode(attrs[0])|, attrs[1..]);
    }
  }

  /** Parsing an encoded list recovers it and ends exactly at the end of the packet. */
  lemma ParseEncoded(mem: Memory, at: nat, attrs: seq<Attribute>)
    requires Rfc2865(attrs)
    requires Holds(mem, at, EncodeAll(attrs))
    ensures var size := at + |EncodeAll(attrs)|;
            ScanFrom(mem, size, at) == Scan(attrs, true, size, size)
  {
    EncodedTiles(mem, at, attrs);
    TilesScan(mem, at + |EncodeAll(attrs)|, at, attrs);
  }

  lemma {:induction false} TilesEncoded(mem: Memory, size: nat, at: nat, attrs: seq<Attribute>)
    requires Tiles(mem, size, at, attrs)
    ensures Holds(mem, at, EncodeAll(attrs))
    decreases |attrs|
  {
    if attrs != [] {
      TilesEncoded(mem, size, at + |Encode(attrs[0])|, attrs[1..]);
      HoldsConcat(mem, at, Encode(attrs[0]), EncodeAll(attrs[1..]));
    }
  }

  /** Encoding what was parsed restores the octets that were read, for every content of memory. */
  lemma EncodeParsed(mem: Memory, size: nat, at: nat)
    requires ScanFrom(mem, size, at).ok
    ensures var s := ScanFrom(mem, size, at);
            EncodeAll(s.attrs) == Slice(mem, at, s.end - at)
  {
    var s := ScanFrom(mem, size, at);
    ScanTiles(mem, size, at);
    TilesEncoded(mem, size, at, s.attrs);
    TilesScan(mem, size, at, s.attrs);
  }

  /** Behind the whole attributes `attrs` an attribute starts in the packet whose length octet is below 2,
      and the 254 or 255 value octets that it wraps to do not fit: the third guard lets it pass. */
  ghost predicate WrapsBehind(mem: Memory, size: nat, at: nat, attrs: seq<Attribute>) {
    var p := at + |EncodeAll(attrs)|;
    && (forall a | a in attrs :: |a.value| <= 255)
    && Holds(mem, at, EncodeAll(attrs))
    && p + 3 <= size && mem(p + 1) < 2 && size < p + 2 + ValueLength(mem(p + 1))
  }

  lemma {:induction false} OverreadWraps(mem: Memory, size: nat, at: nat) returns (attrs: seq<Attribute>)
    requires at <= size < ScanFrom(mem, size, at).reach
    ensures WrapsBehind(mem, size, at, attrs)
    decreases size - at
  {
    if Breaks(mem, size, at) {
      FailedReach(mem, size, at);
      assert false;
    }
    var a := AttributeAt(mem, at);
    var next := at + 2 + |a.value|;
    if next > size {
      attrs := [];
    } else {
      var rest := OverreadWraps(mem, size, next);
      attrs := [a] + rest;
      HoldsAttribute(mem, at, a);
      WrapsFurther(mem, size, at, a, rest);
    }
  }

  lemma WrapsFurther(mem: Memory, size: nat, at: nat, a: Attribute, rest: seq<Attribute>)
    requires |a.value| <= 255 && Holds(mem, at, Encode(a)) && WrapsBehind(mem, size, at + |Encode(a)|, rest)
    ensures WrapsBehind(mem, size, at, [a] + rest)
  {
    HoldsConcat(mem, at, Encode(a), EncodeAll(rest));
    assert EncodeAll([a] + rest) == Encode(a) + EncodeAll(rest);
  }

  lemma {:induction false} WrapsOverread(mem: Memory, size: nat, at: nat, attrs: seq<Attribute>)
    requires WrapsBehind(mem, size, at, attrs)
    ensures ScanFrom(mem, size, at).reach > size
    decreases |attrs|
  {
    if attrs == [] {
      assert !Breaks(mem, size, at);
    } else {
      var a, rest := attrs[0], attrs[1..];
      assert |a.value| <= 255;
      HoldsConcat(mem, at, Encode(a), EncodeAll(rest));
      HoldsAttribute(mem, at, a);
      assert !Breaks(mem, size, at);
      WrapsOverread(mem, size, at + 2 + |a.value|, rest);
    }
  }

  /** The loop reads past the packet exactly when the packet has such an attribute. */
  lemma OverreadExactly(mem: Memory, size: nat, at: nat)
    requires at <= size
    ensures ScanFrom(mem, size, at).reach > size <==> exists attrs :: WrapsBehind(mem, size, at, attrs)
  {
    if ScanFrom(mem, size, at).reach > size {
      var attrs := OverreadWraps(mem, size, at);
    }
    forall attrs | WrapsBehind(mem, size, at, attrs) ensures ScanFrom(mem, size, at).reach > size {
      WrapsOverread(mem, size, at, attrs);
    }
  }

  /** What an overread means for the result: the parse does not fail, and its last value has the
      254 or 255 octets that a length octet below 2 wraps to. */
  lemma {:induction false} OverreadIsLast(mem: Memory, size: nat, at: nat)
    requires at <= size
    ensures var s := ScanFrom(mem, size, at);
            && (s.reach > size <==> s.end > size)
            && (s.reach > size ==> s.ok && s.attrs != [] && |s.attrs[|s.attrs| - 1].value| >= 254)
            && (NoShortLength(s.attrs) && s.ok ==> s.end == size && s.reach == size)
    decreases size - at
  {
    var s := ScanFrom(mem, size, at);
    if s.ok {
      ScanTiles(mem, size, at);
      TilesScan(mem, size, at, s.attrs);
      if size > at {
        LastCrosses(mem, size, at, s.attrs);
      }
    } else {
      FailedReach(mem, size, at);
    }
  }

  lemma {:induction false} LastCrosses(mem: Memory, size: nat, at: nat, attrs: seq<Attribute>)
    requires at <= size && Tiles(mem, size, at, attrs)
    ensures at + |EncodeAll(attrs)| >= size
    ensures at + |EncodeAll(attrs)| > size ==> attrs != [] && |attrs[|attrs| - 1].value| >= 254
    decreases |attrs|
  {
    if attrs != [] {
      var next := at + |Encode(attrs[0])|;
      if next <= size {
        LastCrosses(mem, size, next, attrs[1..]);
      } else {
        assert attrs[1..] == [] || next + 3 <= size;
      }
    }
  }

  lemma {:induction false} FailedReach(mem: Memory, size: nat, at: nat)
    requires at <= size && !ScanFrom(mem, size, at).ok
    ensures ScanFrom(mem, size, at).reach <= size
    decreases size - at
  {
    if at + 3 <= size && at + mem(at + 1) <= size {
      var next := at + 2 + ValueLength(mem(at + 1));
      if next <= size {
        FailedReach(mem, size, next);
      }
    }
  }

  // ---- Storage

  /** Storing attributes one by one, keeping what is already there. */
  function StoreAll(attrs: seq<Attribute>): AvpStorage {
    if attrs == [] then map[] else Insert(StoreAll(attrs[..|attrs| - 1]), attrs[|attrs| - 1])
  }

  function Insert(m: AvpStorage, a: Attribute): AvpStorage {
    if a.kind in m then m else m[a.kind := a.value]
  }

  /** The position of the first attribute of a type. */
  ghost predicate FirstAt(attrs: seq<Attribute>, kind: byte, i: nat) {
    i < |attrs| && attrs[i].kind == kind && forall j: nat | j < i :: attrs[j].kind != kind
  }

  /** First-wins storage: a type is stored exactly when it occurs, with the value of its first occurrence. */
  lemma {:induction false} FirstWins(attrs: seq<Attribute>, kind: byte)
    ensures kind in StoreAll(attrs) <==> exists i: nat :: FirstAt(attrs, kind, i)
    ensures forall i: nat :: FirstAt(attrs, kind, i) ==> kind in StoreAll(attrs) && StoreAll(attrs)[kind] == attrs[i].value
    decreases |attrs|
  {
    if attrs != [] {
      var n := |attrs| - 1;
      var init := attrs[..n];
      FirstWins(init, kind);
      if i: nat :| FirstAt(init, kind, i) {
        assert FirstAt(attrs, kind, i);
      } else if attrs[n].kind == kind {
        NoneBefore(init, kind);
        assert FirstAt(attrs, kind, n);
      }
      forall i: nat | FirstAt(attrs, kind, i)
        ensures kind in StoreAll(attrs) && StoreAll(attrs)[kind] == attrs[i].value
      {
        if i < n {
          assert FirstAt(init, kind, i);
        } else {
          assert forall j: nat | j < n :: init[j] == attrs[j];
        }
      }
    }
  }

  lemma {:induction false} NoneBefore(attrs: seq<Attribute>, kind: byte)
    requires !exists i: nat :: FirstAt(attrs, kind, i)
    ensures forall j: nat | j < |attrs| :: attrs[j].kind != kind
  {
    var n := 0;
    while n < |attrs|
      invariant n <= |attrs| && forall j: nat | j < n :: attrs[j].kind != kind
    {
      assert !FirstAt(attrs, kind, n);
      n := n + 1;
    }
  }

  lemma StoreSnoc(attrs: seq<Attribute>, a: Attribute)
    ensures StoreAll(attrs + [a]) == Insert(StoreAll(attrs), a)
  {
    assert (attrs + [a])[..|attrs|] == attrs;
  }

  // ---- The parsing loop

  /** One iteration in machine arithmetic, `None` for the failing break.  Sums of a `uint16_t` and a
      size are made in a `size_t`, where only the subtraction in the third guard could wrap. */
  method ReadAttribute(mem: Memory, size: uint16, dataOffset: uint16, payload: nat)
    returns (read: Option<Attribute>, dataOffset': uint16, payload': nat)
    requires 2 <= dataOffset == payload < size && size + 254 < TWO_16
    ensures dataOffset' == payload'
    ensures Breaks(mem, size, dataOffset) ==>
              read == None && dataOffset' == if size == dataOffset + 1 then dataOffset else if size == dataOffset + 2 then dataOffset + 1 else dataOffset + 2
    ensures !Breaks(mem, size, dataOffset) ==>
              read == Some(AttributeAt(mem, dataOffset)) && dataOffset' == dataOffset + 2 + ValueLength(mem(dataOffset + 1))
  {
    dataOffset', payload', read := dataOffset, payload, None;
    var atrParsed, lenParsed := false, false;
    var kind: byte := 0;
    if size > dataOffset' + 1 {
      kind := mem(payload');
      dataOffset' := Add16(dataOffset', 1);
      payload' := payload' + 1;
      atrParsed := true;
    }
    var length: byte := 0;
    if size > dataOffset' + 1 && atrParsed {
      length := mem(payload');
      dataOffset' := Add16(dataOffset', 1);
      payload' := payload' + 1;
      lenParsed := true;
    }
    if size >= Wrap64(dataOffset' + length - 1 - 1) && lenParsed {
      length := Sub8(length, 2);
      read := Some(Attribute(kind, Slice(mem, payload', length)));
      dataOffset' := Add16(dataOffset', length);
      payload' := payload' + length;
    }
  }

  /** The parser's state between two iterations: `read` is done and stored, the rest starts at `at`. */
  ghost predicate ParsedUpTo(mem: Memory, size: nat, at: nat, read: seq<Attribute>, avps: AvpStorage) {
    && avps == StoreAll(read)
    && ScanFrom(mem, size, RADIUS_HEADER) == Resume(read, ScanFrom(mem, size, at))
  }

  lemma ParsedMore(mem: Memory, size: nat, at: nat, read: seq<Attribute>, avps: AvpStorage)
    requires at < size && ParsedUpTo(mem, size, at, read, avps) && !Breaks(mem, size, at)
    ensures var a := AttributeAt(mem, at);
            ParsedUpTo(mem, size, at + 2 + ValueLength(mem(at + 1)), read + [a], Insert(avps, a))
  {
    Iteration(mem, size, at, read);
    StoreSnoc(read, AttributeAt(mem, at));
  }

  /** The whole loop.  The packet size leaves room for the 254 octets by which a wrapped length octet can
      overshoot it, so `dataOffset` never wraps; a received frame has at most 4096 octets. */
  method ParseAttributes(mem: Memory, size: uint16)
    returns (avps: AvpStorage, failed: bool, dataOffset: uint16, payload: nat)
    requires RADIUS_HEADER <= size && size + 254 < TWO_16
    ensures var s := ScanFrom(mem, size, RADIUS_HEADER);
            avps == StoreAll(s.attrs) && failed == !s.ok && dataOffset == payload == s.end
  {
    dataOffset := RADIUS_HEADER;
    payload := RADIUS_HEADER;
    avps := map[];
    failed := false;
    ghost var read: seq<Attribute> := [];
    EmptyResume(ScanFrom(mem, size, RADIUS_HEADER));
    while size > dataOffset
      invariant RADIUS_HEADER <= dataOffset == payload <= size + 254
      invariant !failed && ParsedUpTo(mem, size, dataOffset, read, avps)
      decreases size - dataOffset
    {
      ghost var at: nat := dataOffset;
      var a;
      a, dataOffset, payload := ReadAttribute(mem, size, dataOffset, payload);
      if a.Some? {
        ParsedMore(mem, size, at, read, avps);
        avps := Insert(avps, a.value);
        read := read + [a.value];
      } else {
        Iteration(mem, size, at, read);
        failed := true;
        break;
      }
    }
    assert read + [] == read;
  }

  // ---- From a frame

  /** The octets of a frame from its RADIUS header on; `beyond` is what lies behind the buffer. */
  function RadiusMemory(f: Frame, beyond: Memory): Memory {
    (i: nat) => if RADIUS_START + i < MAX_PACKET_SIZE then f.data[RADIUS_START + i] else beyond(i)
  }

  /** The parser sees the buffer from offset 42 to its end at 4096, and behind it whatever lies there. */
  lemma MemoryOnOctets(f: Frame, beyond: Memory, i: nat)
    ensures i < 4054 ==> RadiusMemory(f, beyond)(i) == f.data[42 + i]
    ensures i >= 4054 ==> RadiusMemory(f, beyond)(i) == beyond(i)
  {
  }

  /** What the parsing constructor reads from a frame: the shorter of the computed size and the length field. */
  function RadiusScan(f: Frame, beyond: Memory): Scan {
    var size := if RadiusSize(f) < RadiusLengthField(f) then RadiusSize(f) else RadiusLengthField(f);
    ScanFrom(RadiusMemory(f, beyond), size, RADIUS_HEADER)
  }

  /** The attribute map of the packet that is constructed from a frame. */
  function ParsedAvps(f: Frame, beyond: Memory): AvpStorage {
    StoreAll(RadiusScan(f, beyond).attrs)
  }

  /** The parsing constructor.  The length field may differ from the computed size, as when the assertion that
      they agree is compiled out; for a frame that ends before the RADIUS header the computed size wraps
      and the length field is all that bounds the loop. */
  method ConstructRadius(f: Frame, beyond: Memory) returns (avps: AvpStorage, failed: bool)
    requires RADIUS_START <= f.size || RadiusLengthField(f) + 254 < TWO_16
    ensures avps == ParsedAvps(f, beyond) && failed == !RadiusScan(f, beyond).ok
  {
    var packLength := RadiusLengthField(f);
    var size := if RadiusSize(f) < packLength then RadiusSize(f) else packLength;
    var mem := RadiusMemory(f, beyond);
    if size < RADIUS_HEADER {
      avps, failed := map[], false;
    } else {
      var dataOffset, payload;
      avps, failed, dataOffset, payload := ParseAttributes(mem, size);
    }
  }

  /** The RADIUS packet in the frame: as long as its length field says, or as what was received if that is less. */
  function PacketLength(f: Frame): int {
    var length := 0x100 * (f.data[44] as int) + f.data[45];
    if length <= f.size - 42 then length else f.size - 42
  }

  /** A frame whose attribute octets, from offset 62 to the end of its packet, encode `attrs`; padding may follow. */
  ghost predicate Carries(f: Frame, attrs: seq<Attribute>) {
    && 20 <= PacketLength(f)
    && Rfc2865(attrs)
    && f.data[62..42 + PacketLength(f)] == EncodeAll(attrs)
  }

  /** A frame whose attribute octets encode a list within RFC 2865 is parsed back into that list. */
  lemma EncodedFrameParses(f: Frame, beyond: Memory, attrs: seq<Attribute>, size: nat)
    requires Rfc2865(attrs)
    requires RADIUS_HEADER <= size && RADIUS_START + size <= f.size
    requires f.data[RADIUS_START + RADIUS_HEADER..RADIUS_START + size] == EncodeAll(attrs)
    ensures ScanFrom(RadiusMemory(f, beyond), size, RADIUS_HEADER) == Scan(attrs, true, size, size)
  {
    var octets := EncodeAll(attrs);
    forall i: nat | i < |octets| ensures RadiusMemory(f, beyond)(RADIUS_HEADER + i) == octets[i] {
      assert f.data[RADIUS_START + RADIUS_HEADER..RADIUS_START + size][i] == octets[i];
    }
    ParseEncoded(RadiusMemory(f, beyond), RADIUS_HEADER, attrs);
  }

  /** Such a frame is parsed back into its attributes, whatever lies behind the packet. */
  lemma CarriedIsParsed(f: Frame, beyond: Memory, attrs: seq<Attribute>)
    requires Carries(f, attrs)
    ensures RadiusScan(f, beyond) == Scan(attrs, true, PacketLength(f), PacketLength(f))
    ensures ParsedAvps(f, beyond) == StoreAll(attrs)
  {
    RadiusOnOctets(f);
    EncodedFrameParses(f, beyond, attrs, PacketLength(f));
  }

  /** A RADIUS frame with a correct length field and the three attribute octets 1, 0 and `x`. */
  function OverreadingFrame(x: byte): (f: Frame) {
    var g := RadiusFrame(MIN_IP_HASH, 0);
    Buffer(g.data[45 := 23][62 := 1][63 := 0][64 := x], 65)
  }

  /** Its length octet of 0 makes the parser copy 254 octets, 253 of them from behind the packet. */
  lemma OverreadHappens(x: byte, beyond: Memory)
    ensures var f := OverreadingFrame(x);
            && IsRadius(f) && f.size == 65 && PacketLength(f) == 23
            && f.data[62] == 1 && f.data[63] == 0 && f.data[64] == x
            && RadiusScan(f, beyond).reach == 23 + 253
  {
    var f := OverreadingFrame(x);
    RadiusFrameExists(MIN_IP_HASH, 0);
    RadiusOnOctets(f);
    assert f.data[44] == 0 && f.data[45] == 23;
    var mem := RadiusMemory(f, beyond);
    assert mem(RADIUS_HEADER + 1) == 0;
    assert IsRadius(f);
  }
}
