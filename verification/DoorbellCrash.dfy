/** A whole cycle on disk: what a crash at any byte leaves is one of the runs' own steps. */
module DoorbellCrash {
  import opened Canon
  import opened DoorbellLog
  import opened DoorbellLedger
  import opened DoorbellPlan
  import opened DoorbellAdmit
  import opened DoorbellSchema
  import opened DoorbellWf
  import opened DoorbellKeep
  import opened DoorbellRuns
  import opened DoorbellFold
  import opened DoorbellDerive
  import opened DoorbellPlanner
  import opened DoorbellBytes
  import opened DoorbellJob

  /**
    * One cycle: plan on what the job holds, then write the plan's records ahead, one by one. Memory follows
    * exactly the records durably written.
    */
  method RunCycle(job: Job, codec: Codec, base: Input, io: nat -> Io) returns (done: nat, res: Written)
    requires CanonicalLog(job.state.records)
    modifies job, job.file, job.state
    ensures var plan := Plan(old(job.AsInput(base)));
            done <= |plan| && (res == Appended <==> done == |plan|) &&
            job.AsInput(base) == Fold(old(job.AsInput(base)), plan[..done]) &&
            exists part :: PartOf(codec, part, plan, done) && job.file.bytes == old(job.file.bytes) + Encode(codec, plan[..done]) + part
  {
    hide *;
    InputLog(job, base);
    var p := PlanCycle(job.AsInput(base));
    done, res := job.WriteAll(codec, p.records, io, base);
  }

  lemma InputLog(job: Job, base: Input)
    ensures job.AsInput(base).log == job.state.records
  {
  }

  /** A log of valid records is canonical. */
  lemma ValidIsCanonical(log: seq<Rec>)
    requires AllValid(log)
    ensures CanonicalLog(log)
  {
    forall r | r in log && r.Intent? ensures Ascending(r.i.ids) { assert RecordOk(r); }
  }

  /**
    * Crash at any byte of a cycle's writing: the next start reads the log the cycle began with, and some
    * prefix of its plan. That is exactly the step a run's crash takes.
    */
  lemma CrashIsCycleStep(codec: Codec, s: State, inp: Input, done: nat, part: seq<Byte>)
    requires Faithful(codec) && AllValid(s.log) && Reads(s, inp) && InputOk(inp) && UuidsIn(inp.uid, 0, |Plan(inp)|)
    requires done <= |Plan(inp)| && PartOf(codec, part, Plan(inp), done)
    ensures exists t: State :: CycleStep(s, t) && ReadsAs(codec, Encode(codec, s.log) + Encode(codec, Plan(inp)[..done]) + part, t.log)
  {
    hide Plan, ReadsAs, Encode, Reads, InputOk, UuidsIn, Faithful, PartOf;
    PlanOk(inp);
    assert AllValid(Plan(inp)) by { PlanValid(Plan(inp)); }
    CrashRecovers(codec, s.log, Plan(inp), done, part);
    var k := if done < |Plan(inp)| && part == LineOf(codec, Plan(inp)[done]) then done + 1 else done;
    var t := State(s.hist + Plan(inp)[..k], s.log + Plan(inp)[..k], s.env);
    assert CycleStep(s, t);
  }

  lemma PlanValid(recs: seq<Rec>)
    requires forall r :: r in recs ==> RecordOk(r)
    ensures AllValid(recs)
  {
  }
}
