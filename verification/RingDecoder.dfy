/** The callbacks for repeated fields: the values of a message arrive one by one and are stored in a ring. */
module RingDecoder {
  import opened Words

  /** The slots of the field and the slot the next value goes to. A field that was never mapped has no slots. */
  datatype Ring<T> = Ring(slots: seq<T>, size: nat)
  {
    predicate Valid() {
      if slots == [] then size == 0 else size < |slots|
    }
  }

  datatype Decoded<T> = Decoded(ring: Ring<T>, ok: bool)

  /** One value from the wire; it is None when it cannot be read. */
  function DecodeOne<T>(r: Ring<T>, wire: Option<T>): (d: Decoded<T>)
    requires r.Valid()
    ensures d.ring.Valid() && |d.ring.slots| == |r.slots|
  {
    if r.slots == [] then Decoded(r, true)
    else if wire.None? then Decoded(r, false)
    else
      Decoded(Ring(r.slots[r.size := wire.value], if r.size + 1 >= |r.slots| then 0 else r.size + 1), true)
  }

  /** The values of one message, up to the first that cannot be read. */
  function DecodeMessage<T>(r: Ring<T>, wire: seq<Option<T>>): (d: Decoded<T>)
    requires r.Valid()
    ensures d.ring.Valid() && |d.ring.slots| == |r.slots|
    decreases |wire|
  {
    if wire == [] then Decoded(r, true)
    else
      var before := DecodeMessage(r, wire[..|wire| - 1]);
      if before.ok then DecodeOne(before.ring, wire[|wire| - 1]) else before
  }

  /** The messages a connection brings, one after the other; a message that breaks off does not stop the next. */
  function DecodeAll<T>(r: Ring<T>, messages: seq<seq<Option<T>>>): (d: Ring<T>)
    requires r.Valid()
    ensures d.Valid() && |d.slots| == |r.slots|
    decreases |messages|
  {
    if messages == [] then r
    else DecodeMessage(DecodeAll(r, messages[..|messages| - 1]), messages[|messages| - 1]).ring
  }

  function Wire<T>(values: seq<T>): (r: seq<Option<T>>)
    ensures |r| == |values| && forall i | 0 <= i < |values| :: r[i] == Some(values[i])
  {
    seq(|values|, i requires 0 <= i < |values| => Some(values[i]))
  }

  /** The values of a message that can be read before the first that cannot. */
  function Readable<T>(wire: seq<Option<T>>): seq<T> {
    if wire == [] || wire[0].None? then [] else [wire[0].value] + Readable(wire[1..])
  }

  /** Every value stored over the messages, in order. */
  function Stored<T>(messages: seq<seq<Option<T>>>): seq<T> {
    if messages == [] then [] else Stored(messages[..|messages| - 1]) + Readable(messages[|messages| - 1])
  }

  // ----- the encoder -----

  /** All slots from the first on, wherever the next value would go; `room` values fit into the stream. */
  function Encode<T>(r: Ring<T>, room: nat): (seq<T>, bool) {
    if |r.slots| <= room then (r.slots, true) else (r.slots[..room], false)
  }

  /** The stream gets the slots in order from the first on, as many as fit, and the encoding succeeds exactly when all
      of them do. */
  lemma EncodedInOrder<T>(r: Ring<T>, room: nat)
    ensures var (values, ok) := Encode(r, room);
            && (ok <==> |r.slots| <= room) && |values| == (if ok then |r.slots| else room)
            && forall i | 0 <= i < |values| :: values[i] == r.slots[i]
  {
  }

  /** A field that was never mapped passes over every value without an error. */
  lemma {:induction false} UnmappedPassesOver<T>(wire: seq<Option<T>>)
    ensures DecodeMessage(Ring([], 0), wire) == Decoded(Ring([], 0), true)
    decreases |wire|
  {
    if wire != [] {
      UnmappedPassesOver(wire[..|wire| - 1]);
    }
  }

  // ----- what is in the ring -----

  /** The ring has taken `stored` one after the other since it was mapped: the next value goes to the slot given
      by their number, and each of the last |slots| values is in the slot given by its own number. */
  ghost predicate Holds<T>(r: Ring<T>, stored: seq<T>) {
    && r.slots != [] && r.size == |stored| % |r.slots|
    && forall k: nat | |stored| - |r.slots| <= k < |stored| :: r.slots[k % |r.slots|] == stored[k]
  }

  lemma HoldsOne<T>(r: Ring<T>, stored: seq<T>, x: T)
    requires r.Valid() && Holds(r, stored)
    ensures Holds(DecodeOne(r, Some(x)).ring, stored + [x])
  {
    var n := |r.slots|;
    var d := DecodeOne(r, Some(x)).ring;
    NextSlot(|stored|, n);
    forall k: nat | |stored| + 1 - n <= k < |stored| + 1
      ensures d.slots[k % n] == (stored + [x])[k]
    {
      if k < |stored| {
        OtherSlot(k, |stored|, n);
      }
    }
  }

  lemma NextSlot(t: nat, n: nat)
    requires n > 0
    ensures (t + 1) % n == if t % n + 1 >= n then 0 else t % n + 1
  {
    var q := t / n;
    assert t == q * n + t % n;
    if t % n + 1 < n {
      Quotient(t + 1, q, t % n + 1, n);
    } else {
      assert t + 1 == (q + 1) * n;
      Quotient(t + 1, q + 1, 0, n);
    }
  }

  lemma Quotient(x: int, q: int, r: nat, n: nat)
    requires n > 0 && r < n && x == q * n + r
    ensures x % n == r
  {
    var k, s := x / n, x % n;
    assert x == k * n + s;
    assert (q - k) * n == s - r;
    assert (k - q) * n == r - s;
    NoMultipleBetween(q - k, n);
    NoMultipleBetween(k - q, n);
  }

  /** Two numbers less than `n` apart have different remainders. */
  lemma OtherSlot(k: nat, t: nat, n: nat)
    requires n > 0 && k < t < k + n
    ensures k % n != t % n
  {
    if k % n == t % n {
      Quotient(k, k / n, k % n, n);
      assert t - k == (t / n - k / n) * n;
      NoMultipleBetween(t / n - k / n, n);
    }
  }

  lemma NoMultipleBetween(q: int, n: nat)
    requires n > 0
    ensures q * n <= 0 || q * n >= n
  {
    if q >= 1 {
      assert q * n == n + (q - 1) * n;
    }
  }

  lemma AlignedSlot(t: nat, j: nat, n: nat)
    requires j < n && t % n == 0
    ensures (t + j) % n == j
  {
    Quotient(t + j, t / n, j, n);
  }

  lemma OneRoundOn(t: nat, n: nat)
    requires n > 0
    ensures (t + n) % n == t % n
  {
    Quotient(t + n, t / n + 1, t % n, n);
  }

  /** One message. A value that cannot be read ends it, with the values before it stored. */
  lemma {:induction false} HoldsMessage<T>(r: Ring<T>, stored: seq<T>, wire: seq<Option<T>>)
    requires r.Valid() && Holds(r, stored)
    ensures var d := DecodeMessage(r, wire);
            Holds(d.ring, stored + Readable(wire)) && (d.ok <==> |Readable(wire)| == |wire|)
    decreases |wire|
  {
    if wire == [] {
      assert stored + Readable(wire) == stored;
    } else {
      var front, last := wire[..|wire| - 1], wire[|wire| - 1];
      HoldsMessage(r, stored, front);
      ReadableLast(wire);
      var before := DecodeMessage(r, front);
      if before.ok && last.Some? {
        HoldsOne(before.ring, stored + Readable(front), last.value);
        assert stored + Readable(wire) == stored + Readable(front) + [last.value];
      }
    }
  }

  lemma {:induction false} ReadableLast<T>(wire: seq<Option<T>>)
    requires wire != []
    ensures var front, last := wire[..|wire| - 1], wire[|wire| - 1];
            && |Readable(front)| <= |front|
            && Readable(wire) == Readable(front)
                                 + (if |Readable(front)| == |front| && last.Some? then [last.value] else [])
    decreases |wire|
  {
    var front, last := wire[..|wire| - 1], wire[|wire| - 1];
    if |wire| > 1 && wire[0].Some? {
      ReadableLast(wire[1..]);
      assert wire[1..][..|wire| - 2] == front[1..];
      assert front[0] == wire[0];
    }
  }

  /** Any run of messages, complete or not: the ring holds what they stored. No write is out of bounds. */
  lemma {:induction false} HoldsAll<T>(r: Ring<T>, messages: seq<seq<Option<T>>>)
    requires r.Valid() && r.slots != [] && r.size == 0
    ensures Holds(DecodeAll(r, messages), Stored(messages))
    decreases |messages|
  {
    if messages == [] {
      assert 0 % |r.slots| == 0;
    } else {
      var front := messages[..|messages| - 1];
      HoldsAll(r, front);
      HoldsMessage(DecodeAll(r, front), Stored(front), messages[|messages| - 1]);
    }
  }

  lemma {:induction false} ReadableWire<T>(values: seq<T>)
    ensures Readable(Wire(values)) == values
    decreases |values|
  {
    if values != [] {
      ReadableWire(values[1..]);
      assert Wire(values)[1..] == Wire(values[1..]);
    }
  }

  /** A full message after any run lands rotated by the number of values stored before it. */
  lemma FullMessageLands<T>(r: Ring<T>, messages: seq<seq<Option<T>>>, v: seq<T>, j: nat)
    requires r.Valid() && r.slots != [] && r.size == 0
    requires |v| == |r.slots| && j < |v|
    ensures var d := DecodeMessage(DecodeAll(r, messages), Wire(v));
            d.ok && d.ring.slots[(|Stored(messages)| + j) % |v|] == v[j]
  {
    HoldsAll(r, messages);
    HoldsMessage(DecodeAll(r, messages), Stored(messages), Wire(v));
    ReadableWire(v);
    assert (Stored(messages) + v)[|Stored(messages)| + j] == v[j];
  }

  /** Whatever a sender encodes from a field of the same size ends up in the same slots here. */
  ghost predicate Undoes<T(!new)>(ring: Ring<T>)
    requires ring.Valid()
  {
    forall v: seq<T> | |v| == |ring.slots| :: Received(ring, v) == v
  }

  /** The slots after a message that a sender with the slots `v` has encoded. */
  function Received<T>(ring: Ring<T>, v: seq<T>): (slots: seq<T>)
    requires ring.Valid()
    ensures |slots| == |ring.slots|
  {
    DecodeMessage(ring, Wire(Encode(Ring(v, 0), |v|).0)).ring.slots
  }

  /** Decoding the next message undoes the encoding for every content exactly while the number of values stored
      before is a multiple of the number of slots. `x` and `y` are two different values of the field. */
  lemma DecodeUndoesEncode<T(!new)>(r: Ring<T>, messages: seq<seq<Option<T>>>, x: T, y: T)
    requires r.Valid() && r.slots != [] && r.size == 0 && x != y
    ensures Undoes(DecodeAll(r, messages)) <==> |Stored(messages)| % |r.slots| == 0
  {
    var n, t := |r.slots|, |Stored(messages)|;
    var ring := DecodeAll(r, messages);
    if t % n == 0 {
      forall v: seq<T> | |v| == n
        ensures Received(ring, v) == v
      {
        AlignedMessage(r, messages, v);
      }
    } else {
      var v := [x] + seq(n - 1, _ => y);
      RotatedMessage(r, messages, v, x, y);
    }
  }

  lemma RotatedMessage<T>(r: Ring<T>, messages: seq<seq<Option<T>>>, v: seq<T>, x: T, y: T)
    requires r.Valid() && r.slots != [] && r.size == 0 && x != y
    requires |v| == |r.slots| && |Stored(messages)| % |v| != 0
    requires v[0] == x && forall j | 0 < j < |v| :: v[j] == y
    ensures Received(DecodeAll(r, messages), v) != v
  {
    FullMessageLands(r, messages, v, 0);
    var slot := |Stored(messages)| % |v|;
    assert Received(DecodeAll(r, messages), v)[slot] == x && v[slot] == y;
  }

  lemma AlignedMessage<T>(r: Ring<T>, messages: seq<seq<Option<T>>>, v: seq<T>)
    requires r.Valid() && r.slots != [] && r.size == 0
    requires |v| == |r.slots| && |Stored(messages)| % |v| == 0
    ensures Received(DecodeAll(r, messages), v) == v
  {
    var slots := Received(DecodeAll(r, messages), v);
    forall j: nat | j < |v|
      ensures slots[j] == v[j]
    {
      FullMessageLands(r, messages, v, j);
      AlignedSlot(|Stored(messages)|, j, |v|);
    }
  }

  /** After one message with `k` values too few or too many, every later full message is rotated by `k` slots,
      however many follow. */
  lemma {:induction false} RotationStays<T>(messages: seq<seq<Option<T>>>, n: nat, first: nat)
    requires n > 0 && first <= |messages|
    requires forall i | first <= i < |messages| :: |Readable(messages[i])| == n
    ensures |Stored(messages)| % n == |Stored(messages[..first])| % n
    decreases |messages|
  {
    if first == |messages| {
      assert messages[..first] == messages;
    } else {
      var front := messages[..|messages| - 1];
      RotationStays(front, n, first);
      assert front[..first] == messages[..first];
      OneRoundOn(|Stored(front)|, n);
    }
  }

  // ----- the mapped field -----

  class RepeatedArguments<T(0)> {
    var value: array?<T>
    var maxSize: nat
    var size: nat

    ghost predicate Valid()
      reads this, value
    {
      if value == null then maxSize == 0 && size == 0
      else maxSize == value.Length && maxSize > 0 && size < maxSize
    }

    ghost function View(): (r: Ring<T>)
      reads this, value
      ensures Valid() ==> r.Valid()
    {
      Ring(if value == null then [] else value[..], size)
    }

    constructor ()
      ensures Valid() && View() == Ring([], 0)
    {
      value, maxSize, size := null, 0, 0;
    }

    /** Memory is allocated but not initialised. */
    method Map(numDOF: nat)
      requires Valid() && value == null
      modifies this
      ensures Valid() && |View().slots| == numDOF && View().size == 0
    {
      maxSize := numDOF;
      size := 0;
      if numDOF > 0 {
        value := new T[numDOF];
      }
    }

    method Decode(wire: Option<T>) returns (ok: bool)
      requires Valid()
      modifies this`size, value
      ensures Valid() && Decoded(View(), ok) == DecodeOne(old(View()), wire)
    {
      if value == null {
        return true;
      }
      if wire.None? {
        return false;
      }
      value[size] := wire.value;
      size := size + 1;
      if size >= maxSize {
        size := 0;
      }
      ok := true;
    }

    method EncodeField(room: nat) returns (wire: seq<T>, ok: bool)
      requires Valid()
      ensures (wire, ok) == Encode(View(), room)
    {
      wire := [];
      for i := 0 to maxSize
        invariant i <= room && |View().slots| == maxSize && wire == View().slots[..i]
      {
        if i == room {
          return wire, false;
        }
        wire := wire + [value[i]];
        assert View().slots[..i + 1] == View().slots[..i] + [value[i]];
      }
      ok := true;
      assert wire == View().slots;
    }
  }
}
