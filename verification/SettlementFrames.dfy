/** What fits the 512-byte frame in which the settlement client sends an op. */
module SettlementFrames {
  import SettlementModel
  import opened WireFormat
  import opened WireMessages

  /** A signed op of this size goes out in one frame; a longer one makes the frame buffer throw. */
  predicate FitsFrame(size: nat)
  {
    SettlementModel.ENVELOPE_BYTES + size <= SettlementModel.FRAME_BYTES
  }

  const LONGEST_GOSSIP := 270

  /** A gossip can be sent exactly up to 270 message bytes, although a reader takes up to 1024. */
  lemma GossipFrame(m: Gossip, sig: Bytes)
    requires GossipTyped(m) && |sig| == SIG
    ensures FitsFrame(|WriteGossip(m, sig)|) <==> |m.msg| <= LONGEST_GOSSIP
    ensures |m.msg| <= LONGEST_GOSSIP ==> ReadGossip(WriteGossip(m, sig)) == Read(m, sig)
  {
    GossipRoundTrip(m, sig);
  }
}
