/**
 The packed `message_admission` word: the top bit says that admission is closed, the
 next bit that the drain marker has been sent, and the remaining 62 bits count the
 senders that currently hold an admission guard.

 The word is a 64-bit unsigned integer, so it is modelled as a bounded natural number
 and the bit operations of the source are written out arithmetically. Addition and
 subtraction wrap, as `fetch_sub` and an unchecked `+ 1` do.
 */
module AdmissionWord {
  const MODULUS: nat := 0x1_0000_0000_0000_0000
  const MESSAGE_ADMISSION_CLOSED: nat := 0x8000_0000_0000_0000
  const DRAIN_MARKER_SENT: nat := 0x4000_0000_0000_0000
  const MESSAGE_ADMISSION_COUNT_MASK: nat := DRAIN_MARKER_SENT - 1

  type Word = w: nat | w < MODULUS

  /** `w & MESSAGE_ADMISSION_CLOSED != 0` */
  predicate IsClosed(w: Word) { w / MESSAGE_ADMISSION_CLOSED % 2 == 1 }

  /** `w & DRAIN_MARKER_SENT != 0` */
  predicate IsSent(w: Word) { w / DRAIN_MARKER_SENT % 2 == 1 }

  /** `w & MESSAGE_ADMISSION_COUNT_MASK`: the mask is one less than a power of two. */
  function Count(w: Word): nat { w % DRAIN_MARKER_SENT }

  /** `w | MESSAGE_ADMISSION_CLOSED` */
  function SetClosed(w: Word): Word { if IsClosed(w) then w else w + MESSAGE_ADMISSION_CLOSED }

  /** `w | DRAIN_MARKER_SENT` */
  function SetSent(w: Word): Word { if IsSent(w) then w else w + DRAIN_MARKER_SENT }

  function Increment(w: Word): Word { (w + 1) % MODULUS }

  function Decrement(w: Word): Word { (w + MODULUS - 1) % MODULUS }

  /** What the word means. */
  datatype Triple = Triple(closed: bool, sent: bool, count: nat)

  function Unpack(w: Word): Triple { Triple(IsClosed(w), IsSent(w), Count(w)) }

  function Pack(t: Triple): (w: Word)
    requires t.count <= MESSAGE_ADMISSION_COUNT_MASK
    ensures Unpack(w) == t
  {
    (if t.closed then MESSAGE_ADMISSION_CLOSED else 0) + (if t.sent then DRAIN_MARKER_SENT else 0) + t.count
  }

  /** The two flags are the two high bits; the rest is the count. */
  lemma Parts(w: Word, high: nat, low: nat)
    requires high < 4 && low < DRAIN_MARKER_SENT && w == high * DRAIN_MARKER_SENT + low
    ensures Unpack(w) == Triple(high >= 2, high % 2 == 1, low)
  {
  }

  /** Distinct words mean distinct triples, so the triple is all there is to a word. */
  lemma UnpackInjective(v: Word, w: Word)
    ensures Unpack(v) == Unpack(w) <==> v == w
  {
    assert Pack(Unpack(v)) == v;
    assert Pack(Unpack(w)) == w;
  }

  /** The two `fetch_or`/CAS updates set exactly one flag. */
  lemma FlagUpdates(w: Word)
    ensures Unpack(SetClosed(w)) == Unpack(w).(closed := true)
    ensures Unpack(SetSent(w)) == Unpack(w).(sent := true)
  {
  }

  /** Admitting a sender is an increment of the count alone exactly below the mask; at
      the mask it carries into the marker bit. */
  lemma IncrementRefines(w: Word)
    ensures Unpack(Increment(w)) == Unpack(w).(count := Count(w) + 1) <==> Count(w) < MESSAGE_ADMISSION_COUNT_MASK
    ensures Count(w) == MESSAGE_ADMISSION_COUNT_MASK ==> IsSent(Increment(w)) != IsSent(w)
  {
    var high, low := w / DRAIN_MARKER_SENT, w % DRAIN_MARKER_SENT;
    Parts(w, high, low);
    if low < MESSAGE_ADMISSION_COUNT_MASK {
      Parts(Increment(w), high, low + 1);
    } else {
      Parts(Increment(w), (high + 1) % 4, 0);
    }
  }

  /** Releasing a guard is a decrement of the count alone exactly when some guard is
      counted; at zero it borrows from the flags. */
  lemma DecrementRefines(w: Word)
    ensures Count(w) > 0 ==> Unpack(Decrement(w)) == Unpack(w).(count := Count(w) - 1)
    ensures Count(w) == 0 ==> IsSent(Decrement(w)) != IsSent(w)
  {
    var high, low := w / DRAIN_MARKER_SENT, w % DRAIN_MARKER_SENT;
    Parts(w, high, low);
    if low > 0 {
      Parts(Decrement(w), high, low - 1);
    } else {
      Parts(Decrement(w), (high + 3) % 4, DRAIN_MARKER_SENT - 1);
    }
  }
}
