/** The contract between the kernel probes and the agent that consumes their records. */
module ObservationPipeline {
  import opened Machine
  import C = IncidentCorrelator
  import K = ProbeSteps

  /** Every record that any probe can emit becomes part of an incident when it
      correlates with a risky cycle of the same boot and epoch: none is dropped on
      account of its own threshold, count or duration. The incident has the code the
      record's kind calls for, covers its time and is retained unless the ring has no
      slots at all. */
  lemma EmittedRecordIsReported(capacity: nat, s: C.State, r: K.RawRecord, c: K.Context, env: K.Env)
    requires C.WellFormed(capacity, s) && K.Produced(r, c, env)
    requires c.bootId == s.bootId && c.agentEpoch == s.agentEpoch
    requires s.context.cycleSeq != 0 && s.context.HasTransportRisk()
    requires if c.cycleSeq != 0 then c.cycleSeq == s.context.cycleSeq
             else AbsDiff(env.stamp, s.context.timestampNs) <= s.windowNs
    ensures K.Decode(r).Some? && K.Ev.Classify(K.Decode(r).value, true).Some?
    ensures var (s', out) := C.Ingest(capacity, s, K.Decode(r).value);
            && out.Ok? && out.value.Some?
            && out.value.value.code == K.Ev.Classify(K.Decode(r).value, true).value.code
            && out.value.value.firstSeenNs <= env.stamp <= out.value.value.lastSeenNs
            && (capacity > 0 ==> out.value.value in s'.ring)
  {
    K.ProducedIsReportable(r, c, env);
    hide K.Produced;
    var e := K.Decode(r).value;
    var c := K.Ev.Classify(e, true).value;
    assert C.Ingest(capacity, s, e) == C.IngestClassified(capacity, s, e, c);
    hide K.Decode, K.Ev.Classify, C.Mergeable;
    var target := C.FindMergeTarget(s.ring, c.code, e, s.windowNs);
    if target.Some? {
      var x := C.Merged(s.ring[target.value], e, c);
      assert s.ring[target.value := x][target.value] == x;
    } else if capacity > 0 {
      var ring' := C.Push(capacity, s.ring, C.Opened(s, e, c));
      assert ring'[|ring'| - 1] == C.Opened(s, e, c);
    }
  }
}
