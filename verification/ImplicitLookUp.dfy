/**
 The look-up of a block in the index of an implicit producer, load by load, while the producer inserts
 entries, takes them back and replaces the index, and while blocks are given back in any order.

 An index is an array of pointers to entries, which a larger index takes over; so a consumer that has
 loaded an old index sees the entries change.  Blocks are numbered in the order of their bases, and a
 number stands for the base, as in module ConcurrentLookUp.

 `live`, and in a header `shift` and `newest`, are history variables: no load reads them.
 */
module ImplicitLookUp {
  import opened CircularIndex
  import opened Sequences
  import opened Wrappers
  import Runs

  /** `key` is absent when it is INVALID_BLOCK_BASE, `value` when the pointer is null. */
  datatype Entry = Entry(key: Option<nat>, value: Option<nat>)

  /** The entry for block `n` is at slot `n + shift`, around; `newest` is the number at the tail. */
  datatype Header = Header(index: seq<nat>, tail: nat, shift: int, newest: int)

  datatype Producer =
    | Ready
    | MoveTail      // the key of the next entry has been stored
    | SetValue      // so has the tail; the block, or taking back, is next

  datatype Consumer =
    | Idle
    | LoadHeader(b: nat)
    | LoadTail(b: nat, header: nat)
    | LoadKey(b: nat, header: nat, tail: nat)
    | LoadValue(b: nat, header: nat, slot: nat)
    | Using(b: nat, block: Option<nat>)

  datatype State = State(
    headers: seq<Header>,          // all that were ever made; blockIndex points to the last
    entries: seq<Entry>,           // all entries, by address
    producer: Producer,
    consumers: seq<Consumer>,
    live: map<nat, nat>)           // the blocks that hold items, by number

  datatype Event =
    | StoreKey                     // of the entry for the next block, which is not in use
    | StoreTail
    | StoreValue(block: nat)
    | Rewind                       // no block could be had
    | Grow                         // the next entry is in use
    | Claim(c: nat, b: nat)        // consumer c claims an item in block b
    | Advance(c: nat)
    | Release(c: nat)              // its item is destroyed
    | GiveBack(b: nat)             // the last item in block b was, and its entry is cleared

  function Slot(h: Header, n: int): (slot: nat)
    requires h.index != []
    ensures slot < |h.index|
  {
    (n + h.shift) % |h.index|
  }

  function Current(s: State): Header
    requires s.headers != []
  {
    s.headers[|s.headers| - 1]
  }

  /** The address of the entry for block `n` in a header. */
  function At(h: Header, n: int): nat
    requires h.index != []
  {
    h.index[Slot(h, n)]
  }

  ghost predicate Initial(s: State)
  {
    && |s.headers| == 1 && s.producer == Ready && s.live == map[]
    && var h := s.headers[0];
       && h.index != [] && Distinct(h.index) && h.shift == 0 && h.newest == -1 && h.tail == |h.index| - 1
       && (forall j :: 0 <= j < |h.index| ==> h.index[j] < |s.entries|)
       && (forall a :: 0 <= a < |s.entries| ==> s.entries[a] == Entry(None, None))
       && (forall c :: 0 <= c < |s.consumers| ==> s.consumers[c] == Idle)
  }

  predicate Pending(pc: Consumer, b: nat)
  {
    !pc.Idle? && pc.b == b
  }

  /** The producer's slot after the tail, and whether its entry is free. */
  function NextAt(h: Header): nat
    requires h.index != []
  {
    h.index[(h.tail + 1) % |h.index|]
  }

  predicate NextFree(s: State)
    requires s.headers != [] && Current(s).index != []
  {
    NextAt(Current(s)) < |s.entries| &&
    (s.entries[NextAt(Current(s))].key.None? || s.entries[NextAt(Current(s))].value.None?)
  }

  predicate HeaderThere(s: State, k: nat)
  {
    k < |s.headers| && s.headers[k].index != []
  }

  predicate Enabled(s: State, e: Event)
  {
    s.headers != [] && Current(s).index != [] && Current(s).tail < |Current(s).index| &&
    match e
    case StoreKey => s.producer == Ready && NextFree(s) && Current(s).newest >= -1
    case StoreTail => s.producer == MoveTail
    case StoreValue(_) =>
      && s.producer == SetValue && Current(s).newest >= 0
      && Current(s).index[Current(s).tail] < |s.entries|
    case Rewind => s.producer == SetValue
    case Grow => s.producer == Ready && NextAt(Current(s)) < |s.entries| && !NextFree(s)
    case Claim(c, b) => c < |s.consumers| && s.consumers[c] == Idle && b in s.live
    case Advance(c) => c < |s.consumers| && CanLoad(s, s.consumers[c])
    case Release(c) => c < |s.consumers| && s.consumers[c].Using?
    case GiveBack(b) =>
      && b in s.live && At(Current(s), b) < |s.entries|
      && forall c :: 0 <= c < |s.consumers| ==> !Pending(s.consumers[c], b)
  }

  /** The consumer has a load left, and that is in range and finds a base. */
  predicate CanLoad(s: State, pc: Consumer)
  {
    match pc
    case Idle => false
    case LoadHeader(_) => true
    case LoadTail(_, k) => HeaderThere(s, k)
    case LoadKey(_, k, t) =>
      && HeaderThere(s, k) && t < |s.headers[k].index| && s.headers[k].index[t] < |s.entries|
      && s.entries[s.headers[k].index[t]].key.Some?
    case LoadValue(_, k, slot) =>
      HeaderThere(s, k) && slot < |s.headers[k].index| && s.headers[k].index[slot] < |s.entries|
    case Using(_, _) => false
  }

  function SetConsumer(s: State, c: nat, pc: Consumer): State
    requires c < |s.consumers|
  {
    s.(consumers := s.consumers[c := pc])
  }

  function Replace(s: State, h: Header): State
    requires s.headers != []
  {
    s.(headers := s.headers[|s.headers| - 1 := h])
  }

  function SetEntry(s: State, a: nat, e: Entry): State
    requires a < |s.entries|
  {
    s.(entries := s.entries[a := e])
  }

  /** The old index, from the entry after the tail around to the tail, and then as many new entries. */
  function Larger(h: Header, entries: nat): Header
    requires h.index != []
  {
    var n := |h.index|;
    Header(seq(2 * n, i requires 0 <= i < 2 * n => if i < n then h.index[(h.tail + 1 + i) % n] else entries + (i - n)),
           n - 1, n - 1 - h.newest, h.newest)
  }

  function Load(s: State, pc: Consumer): Consumer
    requires s.headers != [] && CanLoad(s, pc)
  {
    match pc
    case LoadHeader(b) => LoadTail(b, |s.headers| - 1)
    case LoadTail(b, k) => LoadKey(b, k, s.headers[k].tail)
    case LoadKey(b, k, t) =>
      var h := s.headers[k];
      LoadValue(b, k, (t + (b - s.entries[h.index[t]].key.value)) % |h.index|)
    case LoadValue(b, k, slot) => Using(b, s.entries[s.headers[k].index[slot]].value)
  }

  function Next(s: State, e: Event): State
    requires Enabled(s, e)
  {
    var h := Current(s);
    match e
    case StoreKey =>
      SetEntry(s, NextAt(h), s.entries[NextAt(h)].(key := Some(h.newest + 1))).(producer := MoveTail)
    case StoreTail => Replace(s, h.(tail := (h.tail + 1) % |h.index|, newest := h.newest + 1)).(producer := SetValue)
    case StoreValue(block) =>
      SetEntry(s, h.index[h.tail], s.entries[h.index[h.tail]].(value := Some(block))).(
        producer := Ready, live := s.live[h.newest := block])
    case Rewind => Replace(s, h.(tail := (h.tail - 1) % |h.index|, newest := h.newest - 1)).(producer := Ready)
    case Grow =>
      s.(headers := s.headers + [Larger(h, |s.entries|)],
         entries := s.entries + seq(|h.index|, _ => Entry(None, None)))
    case Claim(c, b) => SetConsumer(s, c, LoadHeader(b))
    case Advance(c) => SetConsumer(s, c, Load(s, s.consumers[c]))
    case Release(c) => SetConsumer(s, c, Idle)
    case GiveBack(b) => SetEntry(s, At(h, b), s.entries[At(h, b)].(value := None)).(live := s.live - {b})
  }

  // ----- the invariant

  ghost predicate HeaderOk(s: State, h: Header)
  {
    && h.index != [] && Distinct(h.index) && h.newest >= -1 && h.tail == Slot(h, h.newest)
    && forall j :: 0 <= j < |h.index| ==> h.index[j] < |s.entries|
  }

  /** The entry for block `n` in header `h` has its key. */
  ghost predicate Keyed(s: State, h: Header, n: int)
    requires h.index != []
  {
    At(h, n) < |s.entries| && n >= 0 && s.entries[At(h, n)].key == Some(n)
  }

  /** The entry of the block, and the keys from there to the tail, are in the current index. */
  ghost predicate Listed(s: State, b: nat)
    requires s.headers != [] && Current(s).index != []
  {
    var h := Current(s);
    && b in s.live && b <= h.newest < b + |h.index| && At(h, b) < |s.entries|
    && (forall n :: b <= n <= h.newest ==> Keyed(s, h, n))
    && s.entries[At(h, b)].value == Some(s.live[b])
  }

  /** An entry with a block is that of a live block. */
  ghost predicate Used(s: State, j: nat)
    requires s.headers != [] && Current(s).index != [] && j < |Current(s).index|
  {
    var h := Current(s);
    && h.index[j] < |s.entries|
    && var e := s.entries[h.index[j]];
       e.value.Some? ==> e.key.Some? && e.key.value in s.live && Slot(h, e.key.value) == j
  }

  ghost predicate ProducerOk(s: State)
    requires s.headers != [] && Current(s).index != []
  {
    var h := Current(s);
    && (s.producer == MoveTail ==> Keyed(s, h, h.newest + 1) && s.entries[At(h, h.newest + 1)].value == None)
    && (s.producer == SetValue ==> Keyed(s, h, h.newest) && s.entries[At(h, h.newest)].value == None)
  }

  /** From block `b` up to `n`, the header has the entries of the current one. */
  ghost predicate SameEntries(s: State, h: Header, b: nat, n: int)
    requires s.headers != [] && Current(s).index != [] && h.index != []
  {
    forall m :: b <= m <= n ==> At(h, m) == At(Current(s), m)
  }

  /** The tail that a consumer has loaded is that of block `m`, whose key is still there. */
  ghost predicate TailIs(s: State, k: nat, b: nat, t: nat, m: nat)
    requires s.headers != [] && Current(s).index != [] && HeaderThere(s, k)
  {
    var h := s.headers[k];
    && b <= m < b + |h.index| && t == Slot(h, m) && Keyed(s, h, m)
    && (m <= h.newest || (k == |s.headers| - 1 && m == h.newest + 1 && s.producer != SetValue))
  }

  ghost predicate ConsumerOk(s: State, pc: Consumer)
    requires s.headers != [] && Current(s).index != []
  {
    (!pc.Idle? ==> pc.b in s.live)
    && (pc.LoadTail? || pc.LoadKey? || pc.LoadValue? ==>
          && HeaderThere(s, pc.header) && pc.b <= s.headers[pc.header].newest < pc.b + |s.headers[pc.header].index|
          && SameEntries(s, s.headers[pc.header], pc.b, s.headers[pc.header].newest))
    && (pc.LoadKey? ==> exists m: nat :: TailIs(s, pc.header, pc.b, pc.tail, m))
    && (pc.LoadValue? ==> pc.slot == Slot(s.headers[pc.header], pc.b))
    && (pc.Using? ==> pc.block == Some(s.live[pc.b]))
  }

  /** The newest number that is not to be taken back. */
  function Settled(s: State): int
    requires s.headers != []
  {
    if s.producer == SetValue then Current(s).newest - 1 else Current(s).newest
  }

  ghost predicate HeadersOk(s: State)
  {
    && s.headers != []
    && (forall k :: 0 <= k < |s.headers| ==> HeaderOk(s, s.headers[k]))
    && (forall k :: 0 <= k < |s.headers| - 1 ==> s.headers[k].newest <= Settled(s))
  }

  ghost predicate Inv(s: State)
  {
    && HeadersOk(s)
    && (forall b :: b in s.live ==> Listed(s, b))
    && (forall j :: 0 <= j < |Current(s).index| ==> Used(s, j))
    && ProducerOk(s)
    && (forall c :: 0 <= c < |s.consumers| ==> ConsumerOk(s, s.consumers[c]))
  }

  lemma InitialInv(s: State)
    requires Initial(s)
    ensures Inv(s)
  {
    var h := s.headers[0];
    RemainderIsUnique(h.newest, -1, |h.index| - 1, |h.index|);
  }

  // ----- slots

  lemma SlotSum(p: int, d: int, q: int, c: int)
    requires c > 0 && (q == p + d || q + c == p + d)
    ensures (p % c + d) % c == q % c
  {
    RemainderOfSum(p, d, c);
    RemainderOfShift(q, 1, c);
  }

  /** Blocks less than a full turn apart have different entries. */
  lemma AtDiffers(s: State, h: Header, n: int, x: int)
    requires HeaderOk(s, h) && 0 < x - n < |h.index|
    ensures At(h, n) != At(h, x) && At(h, n) < |s.entries| && At(h, x) < |s.entries|
  {
    SlotsDiffer(n + h.shift, x + h.shift, |h.index|);
  }

  /** The slots after and before the tail are those of the next block and of the one before the newest. */
  lemma Neighbours(s: State, h: Header)
    requires HeaderOk(s, h)
    ensures (h.tail + 1) % |h.index| == Slot(h, h.newest + 1) && (h.tail - 1) % |h.index| == Slot(h, h.newest - 1)
    ensures NextAt(h) == At(h, h.newest + 1) < |s.entries|
  {
    RemainderOfSum(h.newest + h.shift, 1, |h.index|);
    RemainderOfSum(h.newest + h.shift, -1, |h.index|);
  }

  /** A block that lies a full turn before another shares its entry. */
  lemma FullTurn(h: Header, n: int)
    requires h.index != []
    ensures Slot(h, n - |h.index|) == Slot(h, n)
  {
    RemainderOfShift(n + h.shift, -1, |h.index|);
  }

  /** When the next entry is not in use, no live block is a full turn behind it. */
  lemma RoomAhead(s: State, b: nat)
    requires Inv(s) && b in s.live && At(Current(s), Current(s).newest + 1) < |s.entries|
    requires s.entries[At(Current(s), Current(s).newest + 1)].value == None
    ensures Current(s).newest + 1 - b < |Current(s).index|
  {
    hide Used, ConsumerOk, Keyed, Slot;
    var h := Current(s);
    assert Listed(s, b);
    FullTurn(h, h.newest + 1);
  }

  /** A free entry has no block. */
  lemma FreeIsUnused(s: State)
    requires Inv(s) && NextFree(s)
    ensures NextAt(Current(s)) < |s.entries| && s.entries[NextAt(Current(s))].value == None
  {
    var h := Current(s);
    Neighbours(s, h);
    assert Used(s, (h.tail + 1) % |h.index|);
  }

  /** What the producer is writing is no live block yet. */
  lemma NotYetLive(s: State)
    requires Inv(s) && s.producer == SetValue
    ensures forall b :: b in s.live ==> b != Current(s).newest
  {}

  // ----- consumers

  /** The header of a consumer changes at most by its tail, and keys that it needs stay. */
  ghost predicate KeepsFor(s: State, s': State, b: nat)
    requires s.headers != [] && Current(s).index != [] && s'.headers != [] && Current(s').index != []
  {
    && |s'.headers| == |s.headers| && b in s'.live && b in s.live && s'.live[b] == s.live[b]
    && (forall k :: 0 <= k < |s.headers| ==>
          s'.headers[k].index == s.headers[k].index && s'.headers[k].shift == s.headers[k].shift
          && (k < |s.headers| - 1 ==> s'.headers[k] == s.headers[k]))
    && b <= Current(s').newest < b + |Current(s').index|
    && |s'.entries| == |s.entries|
  }

  lemma ConsumerStays(s: State, s': State, pc: Consumer)
    requires s.headers != [] && Current(s).index != [] && s'.headers != [] && Current(s').index != []
    requires ConsumerOk(s, pc) && (!pc.Idle? ==> KeepsFor(s, s', pc.b))
    requires pc.LoadKey? ==>
      forall m: nat :: TailIs(s, pc.header, pc.b, pc.tail, m) ==> TailIs(s', pc.header, pc.b, pc.tail, m)
    ensures ConsumerOk(s', pc)
  {
    hide TailIs;
    if pc.LoadTail? || pc.LoadKey? || pc.LoadValue? {
      assert s'.headers[pc.header].index == s.headers[pc.header].index;
      SameEntriesStay(s, s', pc.header, pc.b);
    }
  }

  lemma SameEntriesStay(s: State, s': State, k: nat, b: nat)
    requires s.headers != [] && Current(s).index != [] && s'.headers != [] && Current(s').index != []
    requires KeepsFor(s, s', b) && HeaderThere(s, k) && SameEntries(s, s.headers[k], b, s.headers[k].newest)
    ensures HeaderThere(s', k) && SameEntries(s', s'.headers[k], b, s'.headers[k].newest)
  {
    if k < |s.headers| - 1 {
      forall m | b <= m <= s'.headers[k].newest ensures At(s'.headers[k], m) == At(Current(s'), m) {
        assert At(s.headers[k], m) == At(Current(s), m);
      }
    }
  }

  /** The tail that a consumer has loaded leads to the current entry of a block not beyond the next one. */
  lemma TailAddress(s: State, pc: Consumer, m: nat)
    requires Inv(s) && ConsumerOk(s, pc) && pc.LoadKey? && TailIs(s, pc.header, pc.b, pc.tail, m)
    ensures At(s.headers[pc.header], m) == At(Current(s), m)
    ensures m <= Current(s).newest
      || (pc.header == |s.headers| - 1 && m == Current(s).newest + 1 && s.producer != SetValue)
  {
    hide Slot, Keyed, Listed, Used;
    assert pc.header < |s.headers| - 1 ==> s.headers[pc.header].newest <= Settled(s);
  }

  // ----- the producer's steps

  lemma StoreKeyInv(s: State)
    requires Inv(s) && Enabled(s, StoreKey)
    ensures Inv(Next(s, StoreKey))
  {
    hide Slot, Used, ConsumerOk, TailIs, Listed;
    var s', h, x: nat := Next(s, StoreKey), Current(s), Current(s).newest + 1;
    Neighbours(s, h);
    FreeIsUnused(s);
    forall b | b in s.live ensures Listed(s', b) {
      RoomAhead(s, b);
      KeyedListed(s, s', b, x);
    }
    forall j | 0 <= j < |h.index| ensures Used(s', j) { KeyedUsed(s, s', j, x); }
    forall c | 0 <= c < |s'.consumers| ensures ConsumerOk(s', s'.consumers[c]) { KeyedConsumer(s, c); }
  }

  lemma KeyedListed(s: State, s': State, b: nat, x: nat)
    requires Inv(s) && Listed(s, b) && x == Current(s).newest + 1 < b + |Current(s).index|
    requires At(Current(s), x) < |s.entries| && s'.headers == s.headers && s'.live == s.live
    requires s'.entries == s.entries[At(Current(s), x) := s.entries[At(Current(s), x)].(key := Some(x))]
    ensures Listed(s', b)
  {
    hide Slot, Used, ConsumerOk, ProducerOk;
    var h := Current(s);
    AtDiffers(s, h, b, x);
    forall n | b <= n <= h.newest ensures Keyed(s', h, n) {
      assert Keyed(s, h, n);
      AtDiffers(s, h, n, x);
    }
  }

  lemma KeyedUsed(s: State, s': State, j: nat, x: nat)
    requires Inv(s) && j < |Current(s).index| && At(Current(s), x) < |s.entries|
    requires s.entries[At(Current(s), x)].value == None && s'.headers == s.headers && s'.live == s.live
    requires s'.entries == s.entries[At(Current(s), x) := s.entries[At(Current(s), x)].(key := Some(x))]
    ensures Used(s', j)
  {
    hide Slot, Listed, ConsumerOk, ProducerOk;
    assert Used(s, j);
  }

  lemma KeyedConsumer(s: State, c: nat)
    requires Inv(s) && Enabled(s, StoreKey) && c < |s.consumers|
    ensures ConsumerOk(Next(s, StoreKey), s.consumers[c])
  {
    hide Slot, Used;
    var s', h, x: nat, pc := Next(s, StoreKey), Current(s), Current(s).newest + 1, s.consumers[c];
    assert ConsumerOk(s, pc);
    Neighbours(s, h);
    FreeIsUnused(s);
    if !pc.Idle? { assert Listed(s, pc.b); }
    if pc.LoadKey? {
      RoomAhead(s, pc.b);
      forall m: nat | TailIs(s, pc.header, pc.b, pc.tail, m) ensures TailIs(s', pc.header, pc.b, pc.tail, m) {
        TailAddress(s, pc, m);
        if m <= h.newest { AtDiffers(s, h, m, x); }
      }
    }
    ConsumerStays(s, s', pc);
  }

  lemma StoreTailInv(s: State)
    requires Inv(s) && Enabled(s, StoreTail)
    ensures Inv(Next(s, StoreTail))
  {
    hide Slot, ConsumerOk, Listed, Used, HeaderOk, ProducerOk, Keyed;
    var s', h := Next(s, StoreTail), Current(s);
    StoreTailHeaders(s);
    StoreTailFacts(s);
    forall b | b in s.live ensures Listed(s', b) {
      RoomAhead(s, b);
      MovedListed(s, s', b);
    }
    forall j | 0 <= j < |h.index| ensures Used(s', j) { MovedUsed(s, s', j); }
    forall c | 0 <= c < |s'.consumers| ensures ConsumerOk(s', s'.consumers[c]) { MovedConsumer(s, c); }
  }

  lemma StoreTailFacts(s: State)
    requires Inv(s) && Enabled(s, StoreTail)
    ensures Keyed(s, Current(s), Current(s).newest + 1) && At(Current(s), Current(s).newest + 1) < |s.entries|
    ensures s.entries[At(Current(s), Current(s).newest + 1)].value == None
    ensures forall b :: b in s.live ==> Listed(s, b) && b <= Current(s).newest
    ensures forall j :: 0 <= j < |Current(s).index| ==> Used(s, j)
  {
    hide ConsumerOk, Used, Slot;
    forall b | b in s.live ensures b <= Current(s).newest { assert Listed(s, b); }
  }

  lemma StoreTailHeaders(s: State)
    requires Inv(s) && Enabled(s, StoreTail)
    ensures HeadersOk(Next(s, StoreTail)) && ProducerOk(Next(s, StoreTail))
  {
    hide ConsumerOk, Listed, Used;
    Neighbours(s, Current(s));
    var s', h := Next(s, StoreTail), Current(s);
    var h' := Current(s');
    assert Slot(h', h'.newest) == Slot(h, h.newest + 1);
    assert forall k :: 0 <= k < |s'.headers| - 1 ==> s'.headers[k] == s.headers[k];
  }

  lemma RewindHeaders(s: State)
    requires Inv(s) && Enabled(s, Rewind)
    ensures HeadersOk(Next(s, Rewind)) && ProducerOk(Next(s, Rewind))
  {
    hide ConsumerOk, Listed, Used;
    Neighbours(s, Current(s));
    var s', h := Next(s, Rewind), Current(s);
    var h' := Current(s');
    assert Slot(h', h'.newest) == Slot(h, h.newest - 1);
    assert forall k :: 0 <= k < |s'.headers| - 1 ==> s'.headers[k] == s.headers[k];
  }

  lemma MovedListed(s: State, s': State, b: nat)
    requires s.headers != [] && Current(s).index != [] && Listed(s, b) && Keyed(s, Current(s), Current(s).newest + 1)
    requires s'.entries == s.entries && s'.live == s.live && s'.headers != []
    requires Current(s').index == Current(s).index && Current(s').shift == Current(s).shift
    requires b <= Current(s').newest <= Current(s).newest + 1 && Current(s').newest < b + |Current(s).index|
    ensures Listed(s', b)
  {
    var h, h' := Current(s), Current(s');
    assert At(h', b) == At(h, b);
    forall n | b <= n <= h'.newest ensures Keyed(s', h', n) { assert Keyed(s, h, n) && At(h', n) == At(h, n); }
  }

  lemma MovedUsed(s: State, s': State, j: nat)
    requires s.headers != [] && Current(s).index != [] && j < |Current(s).index| && Used(s, j)
    requires s'.entries == s.entries && s'.live == s.live && s'.headers != []
    requires Current(s').index == Current(s).index && Current(s').shift == Current(s).shift
    ensures Used(s', j)
  {}

  /** For a consumer, moving the tail of the current header by one matters only to the tail that it may have loaded. */
  lemma TailMoves(s: State, s': State, pc: Consumer)
    requires s.headers != [] && Current(s).index != [] && ConsumerOk(s, pc)
    requires |s'.headers| == |s.headers| && s'.entries == s.entries && s'.live == s.live
    requires forall k :: 0 <= k < |s.headers| - 1 ==> s'.headers[k] == s.headers[k]
    requires Current(s').index == Current(s).index && Current(s').shift == Current(s).shift
    requires !pc.Idle? ==> pc.b <= Current(s').newest < pc.b + |Current(s).index|
    requires if s.producer == SetValue then s'.producer != SetValue && Current(s').newest == Current(s).newest - 1
      else Current(s').newest == Current(s).newest + 1
    ensures ConsumerOk(s', pc)
  {
    hide Keyed;
    if pc.LoadKey? {
      forall m: nat | TailIs(s, pc.header, pc.b, pc.tail, m) ensures TailIs(s', pc.header, pc.b, pc.tail, m) {
        SameKey(s, s', pc.header, m);
      }
    }
    ConsumerStays(s, s', pc);
  }

  lemma SameKey(s: State, s': State, k: nat, m: nat)
    requires HeaderThere(s, k) && HeaderThere(s', k) && s'.entries == s.entries
    requires s'.headers[k].index == s.headers[k].index && s'.headers[k].shift == s.headers[k].shift
    ensures Keyed(s', s'.headers[k], m) == Keyed(s, s.headers[k], m) && Slot(s'.headers[k], m) == Slot(s.headers[k], m)
  {}

  lemma MovedConsumer(s: State, c: nat)
    requires Inv(s) && Enabled(s, StoreTail) && c < |s.consumers|
    ensures ConsumerOk(Next(s, StoreTail), s.consumers[c])
  {
    hide Slot, Keyed, ConsumerOk, Used, HeaderOk;
    var s', pc := Next(s, StoreTail), s.consumers[c];
    assert ConsumerOk(s, pc);
    IsLive(s, pc);
    StoreTailFacts(s);
    if !pc.Idle? {
      assert Listed(s, pc.b);
      RoomAhead(s, pc.b);
    }
    TailMoves(s, s', pc);
  }

  lemma IsLive(s: State, pc: Consumer)
    requires s.headers != [] && Current(s).index != [] && ConsumerOk(s, pc)
    ensures !pc.Idle? ==> pc.b in s.live
  {}

  lemma RewindInv(s: State)
    requires Inv(s) && Enabled(s, Rewind)
    ensures Inv(Next(s, Rewind))
  {
    hide Slot, ConsumerOk, Listed, Used, HeaderOk;
    var s', h := Next(s, Rewind), Current(s);
    RewindHeaders(s);
    NotYetLive(s);
    forall b | b in s.live ensures Listed(s', b) { BackListed(s, s', b); }
    forall j | 0 <= j < |h.index| ensures Used(s', j) { MovedUsed(s, s', j); }
    forall c | 0 <= c < |s'.consumers| ensures ConsumerOk(s', s'.consumers[c]) { BackConsumer(s, c); }
  }

  lemma BackListed(s: State, s': State, b: nat)
    requires s.headers != [] && Current(s).index != [] && Listed(s, b) && b != Current(s).newest
    requires s'.entries == s.entries && s'.live == s.live && s'.headers != []
    requires Current(s').index == Current(s).index && Current(s').shift == Current(s).shift
    requires Current(s').newest == Current(s).newest - 1
    ensures Listed(s', b)
  {
    var h, h' := Current(s), Current(s');
    assert At(h', b) == At(h, b);
    forall n | b <= n <= h'.newest ensures Keyed(s', h', n) { assert Keyed(s, h, n) && At(h', n) == At(h, n); }
  }

  lemma BackConsumer(s: State, c: nat)
    requires Inv(s) && Enabled(s, Rewind) && c < |s.consumers|
    ensures ConsumerOk(Next(s, Rewind), s.consumers[c])
  {
    hide Slot, Keyed, ConsumerOk, Used, HeaderOk;
    var s', pc := Next(s, Rewind), s.consumers[c];
    assert ConsumerOk(s, pc);
    IsLive(s, pc);
    NotYetLive(s);
    if !pc.Idle? { assert Listed(s, pc.b); }
    TailMoves(s, s', pc);
  }

  lemma StoreValueInv(s: State, block: nat)
    requires Inv(s) && Enabled(s, StoreValue(block))
    ensures Inv(Next(s, StoreValue(block)))
  {
    hide Slot, ConsumerOk, Listed, Used;
    var s', h := Next(s, StoreValue(block)), Current(s);
    NotYetLive(s);
    assert h.index[h.tail] == At(h, h.newest);
    forall b | b in s'.live ensures Listed(s', b) { ValuedListed(s, block, b); }
    forall j | 0 <= j < |h.index| ensures Used(s', j) { ValuedUsed(s, block, j); }
    forall c | 0 <= c < |s'.consumers| ensures ConsumerOk(s', s'.consumers[c]) { ValuedConsumer(s, block, c); }
  }

  lemma ValuedListed(s: State, block: nat, b: nat)
    requires Inv(s) && Enabled(s, StoreValue(block)) && b in Next(s, StoreValue(block)).live
    ensures Listed(Next(s, StoreValue(block)), b)
  {
    hide Slot, ConsumerOk, Used;
    var s', h := Next(s, StoreValue(block)), Current(s);
    assert h.index[h.tail] == At(h, h.newest);
    NotYetLive(s);
    if b != h.newest {
      assert Listed(s, b);
      AtDiffers(s, h, b, h.newest);
    }
    forall n | b <= n <= h.newest ensures Keyed(s', h, n) { assert Keyed(s, h, n); }
  }

  lemma ValuedUsed(s: State, block: nat, j: nat)
    requires Inv(s) && Enabled(s, StoreValue(block)) && j < |Current(s).index|
    ensures Used(Next(s, StoreValue(block)), j)
  {
    hide ConsumerOk, Listed;
    assert Used(s, j);
  }

  lemma ValuedConsumer(s: State, block: nat, c: nat)
    requires Inv(s) && Enabled(s, StoreValue(block)) && c < |s.consumers|
    ensures ConsumerOk(Next(s, StoreValue(block)), s.consumers[c])
  {
    hide Slot, Used;
    var s', pc := Next(s, StoreValue(block)), s.consumers[c];
    assert ConsumerOk(s, pc);
    NotYetLive(s);
    if !pc.Idle? { assert Listed(s, pc.b); }
    ConsumerStays(s, s', pc);
  }

  // ----- giving back

  lemma GiveBackInv(s: State, b: nat)
    requires Inv(s) && Enabled(s, GiveBack(b))
    ensures Inv(Next(s, GiveBack(b)))
  {
    hide Slot, ConsumerOk, Listed, Used;
    var s', h := Next(s, GiveBack(b)), Current(s);
    forall d | d in s'.live ensures Listed(s', d) { ClearedListed(s, b, d); }
    forall j | 0 <= j < |h.index| ensures Used(s', j) { ClearedUsed(s, b, j); }
    forall c | 0 <= c < |s'.consumers| ensures ConsumerOk(s', s'.consumers[c]) { ClearedConsumer(s, b, c); }
  }

  lemma ClearedListed(s: State, b: nat, d: nat)
    requires Inv(s) && Enabled(s, GiveBack(b)) && d in s.live && d != b
    ensures Listed(Next(s, GiveBack(b)), d)
  {
    hide Slot, ConsumerOk, Used;
    var s', h := Next(s, GiveBack(b)), Current(s);
    assert Listed(s, d) && Listed(s, b);
    if d < b { AtDiffers(s, h, d, b); } else { AtDiffers(s, h, b, d); }
    forall n | d <= n <= h.newest ensures Keyed(s', h, n) { assert Keyed(s, h, n); }
  }

  lemma ClearedUsed(s: State, b: nat, j: nat)
    requires Inv(s) && Enabled(s, GiveBack(b)) && j < |Current(s).index|
    ensures Used(Next(s, GiveBack(b)), j)
  {
    hide ConsumerOk, Listed;
    assert Used(s, j);
  }

  lemma ClearedConsumer(s: State, b: nat, c: nat)
    requires Inv(s) && Enabled(s, GiveBack(b)) && c < |s.consumers|
    ensures ConsumerOk(Next(s, GiveBack(b)), s.consumers[c])
  {
    hide Slot, Used;
    var s', pc := Next(s, GiveBack(b)), s.consumers[c];
    assert ConsumerOk(s, pc) && !Pending(pc, b);
    if !pc.Idle? { assert Listed(s, pc.b); }
    ConsumerStays(s, s', pc);
  }

  // ----- a larger index

  /** The old entries keep their numbers, which lie at the start of the larger index. */
  lemma LargerSlots(h: Header, entries: nat, n: int)
    requires h.index != [] && h.tail == Slot(h, h.newest) && h.newest - |h.index| < n <= h.newest
    ensures var h', i := Larger(h, entries), |h.index| - 1 - (h.newest - n);
      && 0 <= i < |h.index| && Slot(h', n) == i && (h.tail + 1 + i) % |h.index| == Slot(h, n) && At(h', n) == At(h, n)
  {
    var c, i := |h.index|, |h.index| - 1 - (h.newest - n);
    RemainderIsUnique(i, 0, i, 2 * c);
    SlotSum(h.newest + h.shift, 1 + i, n + h.shift, c);
    LargerIndex(h, entries);
    assert Larger(h, entries).shift + n == i;
  }

  /** An old entry has one place there. */
  lemma LargerPlace(h: Header, entries: nat, n: int, j: nat)
    requires h.index != [] && h.tail == Slot(h, h.newest) && h.newest - |h.index| < n <= h.newest
    requires j < |h.index| && (h.tail + 1 + j) % |h.index| == Slot(h, n)
    ensures Larger(h, entries).index != [] && Slot(Larger(h, entries), n) == j
  {
    hide Slot, Larger;
    var c, i := |h.index|, |h.index| - 1 - (h.newest - n);
    LargerIndex(h, entries);
    LargerSlots(h, entries, n);
    if i < j { SlotsDiffer(h.tail + 1 + i, h.tail + 1 + j, c); }
    if j < i { SlotsDiffer(h.tail + 1 + j, h.tail + 1 + i, c); }
  }

  /** What is used there lies at the slot of its number. */
  lemma LargerUsed(s: State, j: nat)
    requires Inv(s) && Enabled(s, Grow) && j < 2 * |Current(s).index|
    ensures Used(Next(s, Grow), j)
  {
    hide Slot, ConsumerOk, Larger, Distinct;
    var s', h := Next(s, Grow), Current(s);
    var h', c := Larger(h, |s.entries|), |Current(s).index|;
    LargerIndex(h, |s.entries|);
    if j < c {
      var i := (h.tail + 1 + j) % c;
      assert Used(s, i);
      var e := s.entries[h.index[i]];
      if e.value.Some? {
        assert Listed(s, e.key.value);
        LargerPlace(h, |s.entries|, e.key.value, j);
      }
    }
  }

  lemma LargerIndex(h: Header, entries: nat)
    requires h.index != []
    ensures var h', c := Larger(h, entries), |h.index|;
      && |h'.index| == 2 * c && h'.newest == h.newest && h'.tail == c - 1
      && (forall i :: 0 <= i < c ==> h'.index[i] == h.index[(h.tail + 1 + i) % c])
      && (forall i :: c <= i < 2 * c ==> h'.index[i] == entries + (i - c))
  {}

  lemma LargerOk(s: State, h: Header)
    requires HeaderOk(s, h)
    ensures var h' := Larger(h, |s.entries|);
      HeaderOk(s.(entries := s.entries + seq(|h.index|, _ => Entry(None, None))), h')
  {
    hide Larger;
    var h', c := Larger(h, |s.entries|), |h.index|;
    LargerIndex(h, |s.entries|);
    LargerSlots(h, |s.entries|, h.newest);
    forall i, j | 0 <= i < j < 2 * c ensures h'.index[i] != h'.index[j] {
      if j < c { SlotsDiffer(h.tail + 1 + i, h.tail + 1 + j, c); }
    }
  }

  /** The key of the next entry is that of the block a full turn behind it. */
  lemma NextIsOldest(s: State)
    requires Inv(s) && Enabled(s, Grow)
    ensures At(Current(s), Current(s).newest + 1) < |s.entries|
    ensures s.entries[At(Current(s), Current(s).newest + 1)].key != Some(Current(s).newest + 1)
  {
    hide ConsumerOk;
    var h := Current(s);
    Neighbours(s, h);
    assert Used(s, (h.tail + 1) % |h.index|);
    var n := s.entries[NextAt(h)].key.value;
    assert Listed(s, n);
  }

  lemma GrownListed(s: State, b: nat)
    requires Inv(s) && Enabled(s, Grow) && b in s.live
    ensures Listed(Next(s, Grow), b)
  {
    hide Slot, ConsumerOk, Larger, Used;
    var s', h := Next(s, Grow), Current(s);
    LargerIndex(h, |s.entries|);
    assert Listed(s, b);
    LargerSlots(h, |s.entries|, b);
    forall n | b <= n <= h.newest ensures Keyed(s', Current(s'), n) {
      assert Keyed(s, h, n);
      LargerSlots(h, |s.entries|, n);
    }
  }

  lemma GrownConsumer(s: State, c: nat)
    requires Inv(s) && Enabled(s, Grow) && c < |s.consumers|
    ensures ConsumerOk(Next(s, Grow), s.consumers[c])
  {
    hide Slot, Larger, Used, Listed;
    var s', h, pc := Next(s, Grow), Current(s), s.consumers[c];
    assert ConsumerOk(s, pc);
    LargerIndex(h, |s.entries|);
    if pc.LoadTail? || pc.LoadKey? || pc.LoadValue? {
      var hk := s.headers[pc.header];
      assert s'.headers[pc.header] == hk;
      GrownWindow(s, pc.b);
      assert pc.header < |s.headers| - 1 ==> hk.newest <= Settled(s);
      forall m | pc.b <= m <= hk.newest ensures At(hk, m) == At(Current(s'), m) {
        LargerSlots(h, |s.entries|, m);
      }
    }
    if pc.LoadKey? {
      var m: nat :| TailIs(s, pc.header, pc.b, pc.tail, m);
      NextIsOldest(s);
      TailAddress(s, pc, m);
      assert TailIs(s', pc.header, pc.b, pc.tail, m);
    }
  }

  lemma GrownWindow(s: State, b: nat)
    requires Inv(s) && b in s.live
    ensures b <= Current(s).newest < b + |Current(s).index|
  {
    assert Listed(s, b);
  }

  lemma GrowInv(s: State)
    requires Inv(s) && Enabled(s, Grow)
    ensures Inv(Next(s, Grow))
  {
    hide Slot, ConsumerOk, Listed, Used, Larger, HeaderOk;
    var s', h := Next(s, Grow), Current(s);
    LargerIndex(h, |s.entries|);
    forall k | 0 <= k < |s'.headers| ensures HeaderOk(s', s'.headers[k]) {
      if k == |s.headers| {
        LargerOk(s, h);
        SameOk(s.(entries := s'.entries), s', Larger(h, |s.entries|));
      } else {
        MoreEntries(s, s', s.headers[k]);
      }
    }
    forall k | 0 <= k < |s'.headers| - 1 ensures s'.headers[k].newest <= h.newest {
      if k < |s.headers| - 1 { assert s.headers[k].newest <= Settled(s); }
    }
    forall b | b in s'.live ensures Listed(s', b) { GrownListed(s, b); }
    forall j | 0 <= j < |Current(s').index| ensures Used(s', j) { LargerUsed(s, j); }
    forall c | 0 <= c < |s'.consumers| ensures ConsumerOk(s', s'.consumers[c]) { GrownConsumer(s, c); }
  }

  lemma MoreEntries(s: State, s': State, h: Header)
    requires HeaderOk(s, h) && |s.entries| <= |s'.entries|
    ensures HeaderOk(s', h)
  {}

  lemma SameOk(s: State, s': State, h: Header)
    requires |s.entries| == |s'.entries|
    ensures HeaderOk(s, h) == HeaderOk(s', h)
  {}

  // ----- consumers' steps

  lemma LoadKeeps(s: State, c: nat)
    requires Inv(s) && Enabled(s, Advance(c))
    ensures ConsumerOk(s, Load(s, s.consumers[c]))
  {
    hide Slot, Used;
    var pc := s.consumers[c];
    assert ConsumerOk(s, pc);
    assert Listed(s, pc.b);
    match pc
    case LoadHeader(b) =>
    case LoadTail(b, k) =>
      var h := s.headers[k];
      assert At(h, h.newest) == At(Current(s), h.newest);
      assert k < |s.headers| - 1 ==> h.newest <= Settled(s);
      assert Keyed(s, Current(s), h.newest) && HeaderOk(s, h);
      assert TailIs(s, k, b, h.tail, h.newest);
    case LoadKey(b, k, t) =>
      var h := s.headers[k];
      var m: nat :| TailIs(s, k, b, t, m);
      FromTail(h, m, b);
    case LoadValue(b, k, _) =>
      assert At(s.headers[k], b) == At(Current(s), b);
  }

  lemma FromTail(h: Header, m: nat, b: nat)
    requires h.index != []
    ensures (Slot(h, m) + (b - m)) % |h.index| == Slot(h, b)
  {
    SlotSum(m + h.shift, b - m, b + h.shift, |h.index|);
  }

  lemma ConsumerInv(s: State, e: Event)
    requires Inv(s) && Enabled(s, e) && (e.Claim? || e.Advance? || e.Release?)
    ensures Inv(Next(s, e))
  {
    hide Slot, Used, Listed, HeaderOk, ProducerOk, Load, CanLoad, ConsumerOk;
    var s' := Next(s, e);
    if e.Advance? { LoadKeeps(s, e.c); }
    Entering(s);
    forall b | b in s'.live ensures Listed(s', b) { SameForListed(s, s', b); }
    forall j | 0 <= j < |Current(s').index| ensures Used(s', j) { MovedUsed(s, s', j); }
    assert ProducerOk(s) == ProducerOk(s') by { SameForProducer(s, s'); }
    forall k | 0 <= k < |s'.headers| ensures HeaderOk(s', s'.headers[k]) { SameOk(s, s', s.headers[k]); }
    forall c | 0 <= c < |s'.consumers| ensures ConsumerOk(s', s'.consumers[c]) {
      assert ConsumerOk(s, s.consumers[c]);
      SameForConsumer(s, s', s'.consumers[c]);
    }
  }

  lemma Entering(s: State)
    requires s.headers != [] && Current(s).index != []
    ensures ConsumerOk(s, Idle) && forall b :: b in s.live ==> ConsumerOk(s, LoadHeader(b))
  {}

  lemma SameForListed(s: State, s': State, b: nat)
    requires s' == s.(consumers := s'.consumers) && s.headers != [] && Current(s).index != [] && Listed(s, b)
    ensures Listed(s', b)
  {
    forall n | b <= n <= Current(s).newest ensures Keyed(s', Current(s'), n) { assert Keyed(s, Current(s), n); }
  }

  lemma SameForProducer(s: State, s': State)
    requires s' == s.(consumers := s'.consumers) && s.headers != [] && Current(s).index != []
    ensures ProducerOk(s') == ProducerOk(s)
  {}

  lemma SameForConsumer(s: State, s': State, pc: Consumer)
    requires s' == s.(consumers := s'.consumers) && s.headers != [] && Current(s).index != [] && ConsumerOk(s, pc)
    ensures ConsumerOk(s', pc)
  {
    if pc.LoadKey? {
      var m: nat :| TailIs(s, pc.header, pc.b, pc.tail, m);
      assert TailIs(s', pc.header, pc.b, pc.tail, m);
    }
    if pc.LoadTail? || pc.LoadKey? || pc.LoadValue? {
      var h := s.headers[pc.header];
      forall m | pc.b <= m <= h.newest ensures At(h, m) == At(Current(s'), m) { assert At(h, m) == At(Current(s), m); }
    }
  }

  lemma StepInv(s: State, e: Event)
    requires Inv(s) && Enabled(s, e)
    ensures Inv(Next(s, e))
  {
    hide Inv, Next;
    match e
    case StoreKey => StoreKeyInv(s);
    case StoreTail => StoreTailInv(s);
    case StoreValue(block) => StoreValueInv(s, block);
    case Rewind => RewindInv(s);
    case Grow => GrowInv(s);
    case Claim(_, _) => ConsumerInv(s, e);
    case Advance(_) => ConsumerInv(s, e);
    case Release(_) => ConsumerInv(s, e);
    case GiveBack(b) => GiveBackInv(s, b);
  }

  // ----- runs

  /** An event that is not enabled when its turn comes changes nothing. */
  function Step(s: State, e: Event): State
  {
    if Enabled(s, e) then Next(s, e) else s
  }

  function Play(s: State, es: seq<Event>): State
  {
    Runs.Play(Step, s, es)
  }

  lemma PlayInv(s: State, es: seq<Event>)
    requires Inv(s)
    ensures Inv(Play(s, es))
  {
    forall s, e | Inv(s) ensures Inv(Step(s, e)) {
      if Enabled(s, e) { StepInv(s, e); }
    }
    Runs.PlayKeeps(Step, s => Inv(s), s, es);
  }

  /** The block in which consumer `c` has claimed its item. */
  function Target(init: State, es: seq<Event>, c: nat): Option<nat>
  {
    if es == [] then None
    else
      var s, e, before := Play(init, es[..|es| - 1]), es[|es| - 1], Target(init, es[..|es| - 1], c);
      if !Enabled(s, e) then before
      else
        match e
        case Claim(d, b) => if d == c then Some(b) else before
        case Release(d) => if d == c then None else before
        case _ => before
  }

  lemma {:induction false} TargetKept(init: State, es: seq<Event>, c: nat)
    requires Initial(init)
    ensures var s := Play(init, es);
      c < |s.consumers| ==> Target(init, es, c) == if s.consumers[c].Idle? then None else Some(s.consumers[c].b)
  {
    hide Next;
    if es != [] {
      var s, e := Play(init, es[..|es| - 1]), es[|es| - 1];
      TargetKept(init, es[..|es| - 1], c);
      if Enabled(s, e) { ConsumerMoves(s, e, c); }
    }
  }

  /** How many loads the consumer has before it until it uses its block. */
  function Loads(pc: Consumer): nat
  {
    match pc
    case Idle => 0
    case LoadHeader(_) => 4
    case LoadTail(_, _) => 3
    case LoadKey(_, _, _) => 2
    case LoadValue(_, _, _) => 1
    case Using(_, _) => 0
  }

  /** A look-up takes four loads, and stays with its block, whatever the producer and other consumers do. */
  lemma ConsumerMoves(s: State, e: Event, c: nat)
    requires Enabled(s, e)
    ensures |Next(s, e).consumers| == |s.consumers|
    ensures c < |s.consumers| ==>
      var pc, pc' := s.consumers[c], Next(s, e).consumers[c];
      if e == Release(c) then pc'.Idle? && !pc.Idle?
      else if e.Claim? && e.c == c then pc.Idle? && pc' == LoadHeader(e.b)
      else
        && pc'.Idle? == pc.Idle? && (!pc.Idle? ==> pc'.b == pc.b)
        && Loads(pc') == Loads(pc) - (if e == Advance(c) then 1 else 0)
  {}

  /**
   The producer is never stuck: it can insert an entry for the next block, after the index has been
   replaced if need be, and then put the block there, or take the entry back.
   */
  lemma ProducerGoesOn(init: State, es: seq<Event>, block: nat)
    requires Initial(init)
    ensures var s := Play(init, es);
      match s.producer
      case Ready =>
        if Enabled(s, StoreKey) then Next(s, StoreKey).producer == MoveTail
        else Enabled(s, Grow) && Enabled(Next(s, Grow), StoreKey)
      case MoveTail => Enabled(s, StoreTail) && Next(s, StoreTail).producer == SetValue
      case SetValue =>
        && Enabled(s, StoreValue(block)) && Next(s, StoreValue(block)).producer == Ready
        && Next(s, StoreValue(block)).live == s.live[Current(s).newest := block]
        && Enabled(s, Rewind) && Next(s, Rewind).producer == Ready && Next(s, Rewind).live == s.live
  {
    InitialInv(init);
    PlayInv(init, es);
    var s := Play(init, es);
    assert HeaderOk(s, Current(s));
    if s.producer == Ready && !NextFree(s) { GrownIsFree(s); }
  }

  /** In the larger index, the entry after the tail is a new one. */
  lemma GrownIsFree(s: State)
    requires Inv(s) && s.producer == Ready && !NextFree(s)
    ensures Enabled(s, Grow) && Enabled(Next(s, Grow), StoreKey)
  {
    hide Inv, Larger;
    HeaderInRange(s);
    var h := Current(s);
    LargerIndex(h, |s.entries|);
    RemainderIsUnique(|h.index|, 0, |h.index|, 2 * |h.index|);
  }

  lemma HeaderInRange(s: State)
    requires Inv(s)
    ensures s.headers != [] && Current(s).index != [] && Current(s).tail < |Current(s).index|
    ensures Current(s).newest >= -1 && NextAt(Current(s)) < |s.entries|
  {
    assert HeaderOk(s, Current(s));
  }

  /**
   However a consumer's loads interleave with entries being inserted, taken back and cleared in any order,
   and with the index being replaced any number of times: it ends at the block of the item that it has
   claimed; every load is in range, and the tail's entry has a base when it is loaded.
   */
  lemma LookUpIsExact(init: State, es: seq<Event>, c: nat)
    requires Initial(init)
    requires var s := Play(init, es); c < |s.consumers|
    ensures var s := Play(init, es); var pc := s.consumers[c];
      && (!pc.Idle? ==> pc.b in s.live && Target(init, es, c) == Some(pc.b))
      && (pc.Using? ==> pc.block == Some(s.live[pc.b]))
      && (!pc.Idle? && !pc.Using? ==> Enabled(s, Advance(c)))
  {
    TargetKept(init, es, c);
    InitialInv(init);
    PlayInv(init, es);
    Served(Play(init, es), c);
  }

  lemma Served(s: State, c: nat)
    requires Inv(s) && c < |s.consumers|
    ensures var pc := s.consumers[c];
      && (!pc.Idle? ==> pc.b in s.live)
      && (pc.Using? ==> pc.block == Some(s.live[pc.b]))
      && (!pc.Idle? && !pc.Using? ==> Enabled(s, Advance(c)))
  {
    var pc := s.consumers[c];
    assert ConsumerOk(s, pc) && HeaderOk(s, Current(s));
    if pc.LoadKey? || pc.LoadValue? { assert HeaderOk(s, s.headers[pc.header]); }
    if pc.LoadKey? { var m: nat :| TailIs(s, pc.header, pc.b, pc.tail, m); }
  }
}
