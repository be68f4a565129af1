/** The kernel probe handlers as they change their maps and counters. */
module KernelProbes {
  import opened Machine
  import opened ThresholdWindows
  import opened StartStamps
  import opened ProbeSteps
  import Bits

  class Probes {
    var gateway: map<GatewayKey, GatewayOperation>
    var rawPort: map<TaskKey, RawPortOperation>
    var wakeups: map<u32, u64>
    var migrations: map<u32, MigrationState>
    var pageFaults: map<PerCpuKey, Window>
    var drops: map<PerCpuKey, Window>
    var frequencies: map<u32, FrequencyState>
    var irqStarts: map<PerCpuKey, u64>
    var softirqStarts: map<PerCpuKey, u64>
    var gatewayBegins: nat
    var gatewayCompletions: nat
    var gatewayStalls: nat
    var gatewayMismatches: nat
    var emittedEvents: nat
    var lostEvents: nat

    constructor ()
      ensures gateway == map[] && rawPort == map[] && wakeups == map[] && migrations == map[]
      ensures pageFaults == map[] && drops == map[] && frequencies == map[]
      ensures irqStarts == map[] && softirqStarts == map[]
      ensures gatewayBegins == gatewayCompletions == gatewayStalls == gatewayMismatches == emittedEvents == lostEvents == 0
    {
      gateway, rawPort, wakeups, migrations := map[], map[], map[], map[];
      pageFaults, drops, frequencies, irqStarts, softirqStarts := map[], map[], map[], map[], map[];
      gatewayBegins, gatewayCompletions, gatewayStalls, gatewayMismatches := 0, 0, 0, 0;
      emittedEvents, lostEvents := 0, 0;
    }

    /** Hands a record to the ring buffer; a full buffer loses it. */
    method Emit(delivered: bool)
      modifies `emittedEvents, `lostEvents
      ensures emittedEvents == old(emittedEvents) + if delivered then 1 else 0
      ensures lostEvents == old(lostEvents) + if delivered then 0 else 1
    {
      if delivered { emittedEvents := emittedEvents + 1; } else { lostEvents := lostEvents + 1; }
    }

    method GatewayBegin(c: Option<Context>, call: GatewayCall, env: Env)
      modifies `gateway, `gatewayBegins, `gatewayMismatches, `lostEvents
      ensures gateway == GatewayOpened(old(gateway), c, call, env)
      ensures var opens := GatewayOpens(old(gateway), c, call, env);
              && gatewayBegins == old(gatewayBegins) + (if opens then 1 else 0)
              && gatewayMismatches == old(gatewayMismatches)
                                      + (if !opens && c.Some? && c.value.Tracks(env.tgid) then 1 else 0)
              && lostEvents == old(lostEvents)
                               + if !opens && GatewayBeginAllowed(c, call, env.tgid) then 1 else 0
    {
      if c.None? || c.value.gatewayStallThresholdNs == 0 || call.requestId == 0
         || !call.class_.Routes(call.route) || !c.value.Tracks(env.tgid)
      {
        if c.Some? && c.value.Tracks(env.tgid) { gatewayMismatches := gatewayMismatches + 1; }
        return;
      }
      var key := GatewayKey(call.requestId, env.tgid);
      if key in gateway || !env.room {
        gatewayMismatches := gatewayMismatches + 1;
        lostEvents := lostEvents + 1;
        return;
      }
      gateway := gateway[key := GatewayOperation(env.now, c.value.gatewayProbeEpoch, env.tid,
                                                 call.route, call.class_)];
      gatewayBegins := gatewayBegins + 1;
    }

    method GatewayEnd(c: Option<Context>, call: GatewayCall, env: Env) returns (record: Option<RawRecord>)
      modifies `gateway, `gatewayCompletions, `gatewayStalls, `gatewayMismatches, `emittedEvents, `lostEvents
      ensures var key := GatewayKey(call.requestId, env.tgid);
              var closes := GatewayCloses(old(gateway), call, env);
              && gateway == (if closes then old(gateway) - {key} else old(gateway))
              && gatewayCompletions == old(gatewayCompletions) + (if closes then 1 else 0)
              && record == (if closes then GatewayStall(c, old(gateway)[key], call, env) else None)
              && gatewayStalls == old(gatewayStalls) + Emissions(record, env)
              && gatewayMismatches == old(gatewayMismatches)
                                      + if closes && GatewayMatches(c, old(gateway)[key], call)
                                           && env.now >= old(gateway)[key].startNs then 0 else 1
      ensures emittedEvents == old(emittedEvents) + Emissions(record, env)
      ensures lostEvents == old(lostEvents) + Losses(record, env)
    {
      record := None;
      var key := GatewayKey(call.requestId, env.tgid);
      if call.requestId == 0 || key !in gateway {
        gatewayMismatches := gatewayMismatches + 1;
        return;
      }
      var op := gateway[key];
      gateway := gateway - {key};
      gatewayCompletions := gatewayCompletions + 1;
      if c.None? || c.value.gatewayStallThresholdNs == 0 || !call.class_.Routes(call.route)
         || call.outcome > 2 || Bits.And(call.class_.Outcomes(), Bits.OneBit(call.outcome)) == 0
         || call.route != op.routeKind || call.class_ != op.class_
         || op.policyEpoch != c.value.gatewayProbeEpoch || env.now < op.startNs
      {
        gatewayMismatches := gatewayMismatches + 1;
        return;
      }
      var duration := env.now - op.startNs;
      if duration <= c.value.gatewayStallThresholdNs { return; }
      var evidenceTid := if op.startTid == env.tid then env.tid else 0;
      record := Some(Stamped(c.value, env, call.requestId, 7, 7, 2, duration,
                             c.value.gatewayStallThresholdNs, duration, 1, 0, 0,
                             call.outcome * 16 + call.route, env.tgid, evidenceTid, Narrow16(env.cpu)));
      Emit(env.delivered);
      if env.delivered { gatewayStalls := gatewayStalls + 1; }
    }

    method RawPortBegin(c: Option<Context>, call: RawPortCall, env: Env)
      modifies `rawPort, `lostEvents
      ensures rawPort == Apply(old(rawPort), RawPortBegun(c, call, env))
      ensures lostEvents == old(lostEvents)
                            + if RawPortBeginAllowed(c, call, env.tgid) && !env.room then 1 else 0
    {
      if c.None? || c.value.rawPortStallThresholdNs == 0 || call.ifindex == 0
         || call.operation > 1 || !c.value.Tracks(env.tgid)
      {
        return;
      }
      if !env.room {
        lostEvents := lostEvents + 1;
        return;
      }
      rawPort := rawPort[TaskKey(env.tgid, env.tid) :=
        RawPortOperation(env.now, c.value.rawPortProbeEpoch, call.ifindex, call.operation)];
    }

    method RawPortEnd(c: Option<Context>, call: RawPortCall, env: Env) returns (record: Option<RawRecord>)
      modifies `rawPort, `emittedEvents, `lostEvents
      ensures rawPort == Apply(old(rawPort), Finish(TaskKey(env.tgid, env.tid)))
      ensures record == RawPortStall(c, Lookup(old(rawPort), TaskKey(env.tgid, env.tid)), call, env)
      ensures emittedEvents == old(emittedEvents) + Emissions(record, env)
      ensures lostEvents == old(lostEvents) + Losses(record, env)
    {
      record := None;
      var key := TaskKey(env.tgid, env.tid);
      if key !in rawPort {
        assert rawPort - {key} == rawPort;
        return;
      }
      var op := rawPort[key];
      rawPort := rawPort - {key};
      var allowed := if call.operation == 0 then 0x7 else 0xf;
      if c.None? || c.value.rawPortStallThresholdNs == 0 || !c.value.Tracks(env.tgid)
         || call.ifindex == 0 || call.operation > 1 || call.outcome > 3
         || Bits.And(allowed, Bits.OneBit(call.outcome)) == 0
         || call.ifindex != op.ifindex || call.operation != op.operation
         || op.policyEpoch != c.value.rawPortProbeEpoch || env.now < op.startNs
      {
        return;
      }
      var duration := env.now - op.startNs;
      if duration <= c.value.rawPortStallThresholdNs { return; }
      record := Some(Stamped(c.value, env, op.startNs, 5, 11, 2, duration,
                             c.value.rawPortStallThresholdNs, duration, 1, 0, op.ifindex,
                             call.outcome * 16 + call.operation, env.tgid, env.tid, Narrow16(env.cpu)));
      Emit(env.delivered);
    }

    method SchedWakeup(c: Option<Context>, pid: u32, env: Env)
      modifies `wakeups
      ensures wakeups == Apply(old(wakeups), WakeupStamp(c, pid, env))
    {
      if c.None? || !c.value.TracksScheduler(pid) { return; }
      if env.room { wakeups := wakeups[pid := env.now]; }
    }

    method SchedSwitch(c: Option<Context>, pid: u32, env: Env) returns (record: Option<RawRecord>)
      modifies `wakeups, `emittedEvents, `lostEvents
      ensures wakeups == Apply(old(wakeups), SwitchStamp(c, pid))
      ensures record == DispatchRecord(c, Lookup(old(wakeups), pid), pid, env)
      ensures emittedEvents == old(emittedEvents) + Emissions(record, env)
      ensures lostEvents == old(lostEvents) + Losses(record, env)
    {
      record := None;
      if c.None? || !c.value.TracksScheduler(pid) { return; }
      if pid !in wakeups {
        assert wakeups - {pid} == wakeups;
        return;
      }
      var latency := (env.now - wakeups[pid]) % 0x1_0000_0000_0000_0000;
      wakeups := wakeups - {pid};
      if latency > c.value.schedulerLatencyThresholdNs {
        record := Some(Stamped(c.value, env, 0, 0, 0, 2, latency, c.value.schedulerLatencyThresholdNs,
                               latency, 1, 0, 0, 0, 0, pid, Narrow16(env.cpu)));
        Emit(env.delivered);
      }
    }

    method MigrateTask(c: Option<Context>, m: Move, env: Env) returns (record: Option<RawRecord>)
      modifies `migrations, `emittedEvents, `lostEvents
      ensures migrations == MigrationTable(old(migrations), c, m, env)
      ensures record == if m.Sane() then MoveRecord(c, Lookup(old(migrations), m.pid), m, env) else None
      ensures emittedEvents == old(emittedEvents) + Emissions(record, env)
      ensures lostEvents == old(lostEvents) + Losses(record, env)
                            + if MoveCounted(c, m) && m.pid !in old(migrations) && !env.room then 1 else 0
    {
      hide Stamped, Context.TracksScheduler;
      record := None;
      if c.None? || c.value.schedulerMigrationThreshold == 0 || c.value.schedulerMigrationWindowNs == 0 { return; }
      var pid, origin, destination, priority := m.pid, m.origin, m.destination, m.priority;
      if pid <= 0 || origin < 0 || destination < 0 || origin > 0xffff || destination > 0xffff
         || origin == destination
      {
        return;
      }
      if !c.value.TracksScheduler(pid) { return; }
      var count: u32, elapsed: u64 := 1, 0;
      var epoch := c.value.schedulerMigrationEpoch;
      var crossed := c.value.schedulerMigrationThreshold == 1;
      if pid !in migrations {
        if !env.room {
          lostEvents := lostEvents + 1;
          return;
        }
        migrations := migrations[pid := MigrationState(Window(env.now, 1), epoch, origin, destination)];
      } else {
        var state := migrations[pid];
        if state.policyEpoch != epoch || env.now < state.window.start
           || env.now - state.window.start >= c.value.schedulerMigrationWindowNs
        {
          state := MigrationState(Window(env.now, 1), epoch, origin, destination);
        } else {
          elapsed := env.now - state.window.start;
          var previous := state.window.count;
          if previous != U32_MAX {
            state := state.(window := Window(state.window.start, previous + 1));
          }
          state := state.(originCpu := origin, destinationCpu := destination);
          count := state.window.count;
          crossed := previous < c.value.schedulerMigrationThreshold <= count;
        }
        migrations := migrations[pid := state];
      }
      if !crossed { return; }
      var level := if priority < 0 then 0 else Narrow8(priority);
      record := Some(Stamped(c.value, env, 0, 0, 10, 1, count, c.value.schedulerMigrationThreshold,
                             elapsed, count, origin, 0, level, 0, pid, destination));
      Emit(env.delivered);
    }

    method ProcessExit(c: Option<Context>, env: Env) returns (record: Option<RawRecord>)
      modifies `emittedEvents, `lostEvents
      ensures record == LeaderExit(c, env)
      ensures emittedEvents == old(emittedEvents) + Emissions(record, env)
      ensures lostEvents == old(lostEvents) + Losses(record, env)
    {
      record := None;
      if c.None? || !c.value.Tracks(env.tgid) { return; }
      if env.tid != env.tgid { return; }
      record := Some(Stamped(c.value, env, 0, 4, 5, 3, 1, 1, 0, 1, 0, 0, 0, env.tgid, env.tid, Narrow16(env.cpu)));
      Emit(env.delivered);
    }

    method PageFaultUser(c: Option<Context>, errorCode: u64, env: Env) returns (record: Option<RawRecord>)
      modifies `pageFaults, `emittedEvents, `lostEvents
      ensures var key := PerCpuKey(env.cpu, env.tgid);
              && pageFaults == FaultTable(old(pageFaults), c, env)
              && record == FaultRecord(c, Lookup(old(pageFaults), key), errorCode, env)
              && lostEvents == old(lostEvents) + Losses(record, env)
                               + if FaultCounted(c, env) && key !in old(pageFaults) && !env.room then 1 else 0
      ensures emittedEvents == old(emittedEvents) + Emissions(record, env)
    {
      record := None;
      if c.None? || !c.value.Tracks(env.tgid) { return; }
      if c.value.pageFaultThreshold == 0 || c.value.pageFaultWindowNs == 0 { return; }
      var key := PerCpuKey(env.cpu, env.tgid);
      var count: u32, elapsed: u64 := 1, 0;
      var crossed := c.value.pageFaultThreshold == 1;
      if key !in pageFaults {
        if !env.room {
          lostEvents := lostEvents + 1;
          return;
        }
        pageFaults := pageFaults[key := Window(env.now, 1)];
      } else {
        var state := pageFaults[key];
        if env.now < state.start || env.now - state.start >= c.value.pageFaultWindowNs {
          state := Window(env.now, 1);
        } else {
          elapsed := env.now - state.start;
          var previous := state.count;
          if previous != U32_MAX { state := Window(state.start, previous + 1); }
          count := state.count;
          crossed := previous < c.value.pageFaultThreshold <= count;
        }
        pageFaults := pageFaults[key := state];
      }
      if crossed {
        record := Some(Stamped(c.value, env, 0, 3, 3, 1, count, c.value.pageFaultThreshold, elapsed, count,
                               0, 0, Narrow8(errorCode), env.tgid, env.tid, Narrow16(env.cpu)));
        Emit(env.delivered);
      }
    }

    method OomKill(c: Option<Context>, victim: i32, env: Env) returns (record: Option<RawRecord>)
      modifies `emittedEvents, `lostEvents
      ensures record == VictimRecord(c, victim, env)
      ensures emittedEvents == old(emittedEvents) + Emissions(record, env)
      ensures lostEvents == old(lostEvents) + Losses(record, env)
    {
      record := None;
      if victim <= 0 { return; }
      if c.None? || !c.value.Tracks(victim) { return; }
      record := Some(Stamped(c.value, env, 0, 3, 4, 3, 1, 1, 0, 1, 0, 0, 0, victim, victim, Narrow16(env.cpu)));
      Emit(env.delivered);
    }

    method NetworkDrop(c: Option<Context>, protocol: u16, ifindex: u32, reason: u32, env: Env)
      returns (record: Option<RawRecord>)
      modifies `drops, `emittedEvents, `lostEvents
      ensures var key := PerCpuKey(env.cpu, ifindex);
              && drops == DropTable(old(drops), c, protocol, ifindex, env)
              && record == DropRecord(c, Lookup(old(drops), key), protocol, ifindex, reason, env)
              && lostEvents == old(lostEvents) + Losses(record, env)
                               + if DropCounted(c, protocol, ifindex) && key !in old(drops) && !env.room then 1 else 0
      ensures emittedEvents == old(emittedEvents) + Emissions(record, env)
    {
      record := None;
      if c.None? || protocol != c.value.networkProtocol { return; }
      if ifindex == 0 { return; }
      if c.value.networkIfindex != 0 && c.value.networkIfindex != ifindex { return; }
      var key := PerCpuKey(env.cpu, ifindex);
      var count: u32, elapsed: u64 := 1, 0;
      if key !in drops {
        if !env.room {
          lostEvents := lostEvents + 1;
          return;
        }
        drops := drops[key := Window(env.now, 1)];
      } else {
        var state := drops[key];
        if env.now < state.start || env.now - state.start >= c.value.networkDropWindowNs {
          state := Window(env.now, 1);
        } else {
          elapsed := env.now - state.start;
          if state.count != U32_MAX { state := Window(state.start, state.count + 1); }
          count := state.count;
        }
        drops := drops[key := state];
      }
      if count == c.value.networkDropThreshold {
        record := Some(Stamped(c.value, env, 0, 2, 2, 2, count, c.value.networkDropThreshold, elapsed, count,
                               0, ifindex, Narrow8(reason), 0, 0, Narrow16(env.cpu)));
        Emit(env.delivered);
      }
    }

    /** Reports a frequency cap below the floor once, until the cap recovers or the
        policy changes. */
    method CpuFrequencyLimit(c: Option<Context>, policyCpu: u32, maxFrequencyKhz: u32, env: Env)
      returns (record: Option<RawRecord>)
      modifies `frequencies, `emittedEvents, `lostEvents
      ensures frequencies == FrequencyTable(old(frequencies), c, policyCpu, maxFrequencyKhz, env)
      ensures record == LimitRecord(c, Lookup(old(frequencies), policyCpu), policyCpu, maxFrequencyKhz, env)
      ensures emittedEvents == old(emittedEvents) + Emissions(record, env)
      ensures lostEvents == old(lostEvents) + Losses(record, env)
                            + if LimitCounted(c, policyCpu, maxFrequencyKhz) && policyCpu !in old(frequencies)
                                 && !env.room then 1 else 0
    {
      record := None;
      if c.None? || c.value.cpuFrequencyFloorKhz == 0 { return; }
      if c.value.cpuFrequencyPolicyCpu != ANY_VECTOR && c.value.cpuFrequencyPolicyCpu != policyCpu { return; }
      if maxFrequencyKhz == 0 { return; }
      var floor := c.value.cpuFrequencyFloorKhz;
      var epoch := c.value.cpuFrequencyPolicyEpoch;
      var below := maxFrequencyKhz < floor;
      if policyCpu !in frequencies {
        if !env.room {
          lostEvents := lostEvents + 1;
          return;
        }
        frequencies := frequencies[policyCpu := FrequencyState(maxFrequencyKhz, epoch, below)];
        if !below { return; }
      } else {
        var state := frequencies[policyCpu];
        if state.policyEpoch != epoch { state := state.(policyEpoch := epoch, belowFloor := false); }
        state := state.(maxFrequencyKhz := maxFrequencyKhz);
        var suppressed := state.belowFloor;
        frequencies := frequencies[policyCpu := state.(belowFloor := below)];
        if !below || suppressed { return; }
      }
      record := Some(Stamped(c.value, env, 0, 0, 6, 2, maxFrequencyKhz, floor, 0, 1, 0, 0, 0, 0, 0,
                             Narrow16(policyCpu)));
      Emit(env.delivered);
    }

    method InterruptEntry(c: Option<Context>, soft: bool, vector: u32, env: Env)
      modifies `irqStarts, `softirqStarts, `lostEvents
      ensures irqStarts == (if soft then old(irqStarts) else Apply(old(irqStarts), EntryStamp(c, vector, env)))
      ensures softirqStarts == (if soft then Apply(old(softirqStarts), EntryStamp(c, vector, env)) else old(softirqStarts))
      ensures lostEvents == old(lostEvents)
                            + if c.Some? && c.value.TracksInterrupt(env.cpu, vector) && !env.room then 1 else 0
    {
      if c.None? || !c.value.TracksInterrupt(env.cpu, vector) { return; }
      if !env.room {
        lostEvents := lostEvents + 1;
        return;
      }
      var key := PerCpuKey(env.cpu, vector);
      if soft { softirqStarts := softirqStarts[key := env.now]; } else { irqStarts := irqStarts[key := env.now]; }
    }

    method InterruptExit(c: Option<Context>, soft: bool, vector: u32, env: Env) returns (record: Option<RawRecord>)
      modifies `irqStarts, `softirqStarts, `emittedEvents, `lostEvents
      ensures var key := PerCpuKey(env.cpu, vector);
              && irqStarts == (if soft then old(irqStarts) else Apply(old(irqStarts), Finish(key)))
              && softirqStarts == (if soft then Apply(old(softirqStarts), Finish(key)) else old(softirqStarts))
              && record == ExitRecord(c, Lookup(old(if soft then softirqStarts else irqStarts), key), soft, vector, env)
      ensures emittedEvents == old(emittedEvents) + Emissions(record, env)
      ensures lostEvents == old(lostEvents) + Losses(record, env)
    {
      record := None;
      var key := PerCpuKey(env.cpu, vector);
      var starts := if soft then softirqStarts else irqStarts;
      if key !in starts {
        assert starts - {key} == starts;
        return;
      }
      var start := starts[key];
      if soft { softirqStarts := starts - {key}; } else { irqStarts := starts - {key}; }
      if env.now < start { return; }
      var duration := env.now - start;
      if c.None? { return; }
      var threshold := if soft then c.value.softirqDurationThresholdNs else c.value.irqDurationThresholdNs;
      if duration > threshold {
        record := Some(Stamped(c.value, env, 0, 1, if soft then 9 else 1, 2, duration, threshold, duration, 1,
                               Narrow16(vector), 0, 0, env.tgid, env.tid, Narrow16(env.cpu)));
        Emit(env.delivered);
      }
    }
  }
}
