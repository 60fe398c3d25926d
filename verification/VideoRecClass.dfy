/** The recorder's side of the frame ring in place: taking annotated frames for encoding and giving them back. */
module VideoRecImpl {
  import opened Common
  import opened FrameRingModel
  import opened FrameRingOps
  import opened FrameRingImpl

  class VideoRec {
    const ring: FrameRing
    /** Number of the last annotated frame consumed. */
    var aiSeq: nat

    constructor (ring: FrameRing)
      requires ring.Valid()
      ensures this.ring == ring && aiSeq == 0
    {
      this.ring := ring;
      aiSeq := 0;
    }

    /**
     * Steals the NV12 buffer of the newest annotated frame not yet consumed; a frame whose size is
     * not the encoder's is consumed without being taken.
     */
    method TakeAiFrame(pw: int, ph: int) returns (b: Option<Buf>)
      requires ring.Valid()
      modifies `aiSeq, ring, ring.slots
      ensures ring.Valid()
      ensures var r, pick := old(ring.Value()), EncodePick(old(ring.Value()), old(aiSeq));
              if pick.None? then b.None? && ring.Value() == r && aiSeq == old(aiSeq)
              else
                var s := r.slots[pick.value];
                && aiSeq == s.frame > old(aiSeq)
                && if s.w != pw || s.h != ph
                   then b.None? && ring.Value() == EncodeSkip(r, pick.value, ring.nodeOk)
                   else b == s.nv12 && b.Some?
                        && ring.Value() == EncodeAdvance(WithSlot(r, pick.value, s.(nv12 := None)), pick.value, ring.nodeOk)
    {
      var pick := ring.EncodePick(aiSeq);
      if pick.None? {
        return None;
      }
      var s := ring.slots[pick.value];
      aiSeq := s.frame;
      if s.w != pw || s.h != ph {
        ring.EncodeSkip(pick.value);
        return None;
      }
      b := ring.Steal(pick.value);
    }

    /** Returns the buffer to its pool once the encoder is done with it. */
    method GiveBack(b: Buf)
      requires ring.Valid()
      modifies ring
      ensures ring.Valid() && ring.Books() == Put(old(ring.Books()), Nv12, Some(b), ring.nodeOk)
      ensures ring.Ctl() == old(ring.Ctl())
    {
      ring.BufPut(Nv12, Some(b));
    }
  }
}
