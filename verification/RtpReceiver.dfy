/**
  The receiver object of src/rtp/rtpreceiver.cpp: arrays of slots and 16-bit sequence numbers
  updated in place. Each method is one atomic action of one of the two threads. The object carries
  the run of JitterRing it has made so far; every method extends it by the step that carries its
  name and hands on what the theorems about runs say of the new state.
*/
module RtpReceiver {
  import opened Common
  import opened JitterRing
  import opened JitterCounts
  import opened JitterSlot
  import opened JitterPolicy
  import opened JitterMerge
  import RtpPacket
  import LossCounter

  /** The receive thread's locals between the duplicate check and the publication. */
  datatype Pending = NoPacket | Packet(leg: nat, seqNo: nat, audio: Audio, sized: bool, filled: nat)

  /** The scalar variables of both threads. */
  datatype Vars = Vars(
    pending: Pending, nextSeq: nat, firstSeq: nat, haveFirst: bool,
    played: nat, concealed: nat, duplicates: nat, secondary: nat, legs: seq<LossCounter.Leg>)

  /** v is state m in 16-bit clothes. */
  ghost predicate Shows(v: Vars, m: State) {
    && (match v.pending
        case NoPacket => m.writer.Idle?
        case Packet(leg, seqNo, audio, sized, filled) =>
          m.writer.Busy? && m.writer == Busy(leg, m.writer.pos, audio, sized, filled)
          && seqNo == m.writer.pos % SEQ_RANGE)
    && v.nextSeq == m.cursor % SEQ_RANGE
    && v.firstSeq == m.first % SEQ_RANGE
    && v.haveFirst == m.haveFirst
    && v.played == m.count.played && v.concealed == m.count.concealed
    && v.duplicates == m.count.duplicates && v.secondary == m.count.secondary
    && |v.legs| == 2 && v.legs[0].received + v.legs[1].received == m.count.received
  }

  /** Every packet is accounted for in every state the run has been through. */
  ghost predicate AlwaysConserved(r: Run) {
    forall n {:trigger Conserved(r.states[n])} :: 0 <= n < |r.states| ==> Conserved(r.states[n])
  }

  lemma RunConserves(r: Run)
    requires IsRun(r)
    ensures AlwaysConserved(r)
  {
    forall n | 0 <= n < |r.states|
      ensures Conserved(r.states[n])
    {
      PacketConservation(r, n);
    }
  }

  lemma Shifted(pos: int, n: nat)
    ensures (pos % SEQ_RANGE + n) % SEQ_RANGE == (pos + n) % SEQ_RANGE
  {
  }

  class RtpReceiver {
    const config: Config
    const generation: array<nat>
    const samples: array<Audio>
    var vars: Vars
    ghost var model: State
    ghost var run: Run

    ghost predicate RingShown()
      reads this, generation, samples
    {
      && generation.Length == samples.Length == |model.ring| == SLOTS
      && (forall i :: 0 <= i < SLOTS ==> generation[i] == model.ring[i].gen)
      && (forall i :: 0 <= i < SLOTS ==> samples[i] == model.ring[i].audio)
    }

    /** The model state is where a run of the step system has arrived. */
    ghost predicate Traced()
      reads this
    {
      IsRun(run) && run.config == config && Last(run) == model
    }

    ghost predicate Valid()
      reads this, generation, samples
    {
      RingShown() && Shows(vars, model) && Traced()
    }

    /** The run has grown by one step; every packet is still accounted for. */
    twostate predicate Took(step: Step)
      reads this, generation, samples
    {
      && Valid() && Enabled(old(model), step) && model == Apply(old(model), config, step)
      && run.steps == old(run).steps + [step] && old(run).states <= run.states
      && AlwaysConserved(run)
    }

    /** Extend the run by one step. */
    ghost method Record(step: Step)
      requires Traced() && Enabled(model, step)
      modifies this`model, this`run
      ensures Traced() && model == Apply(old(model), config, step)
      ensures run.steps == old(run).steps + [step] && old(run).states <= run.states && AlwaysConserved(run)
    {
      model := Apply(model, config, step);
      run := Go(run, step);
      RunConserves(run);
    }

    /** Configure, from the resets onwards. */
    constructor (config: Config)
      ensures Valid() && Init(model) && this.config == config && run.steps == []
      ensures fresh(generation) && fresh(samples)
    {
      this.config := config;
      generation := new nat[SLOTS](_ => 0);
      samples := new Audio[SLOTS](_ => []);
      var leg := LossCounter.Leg(0, 0, 0, false);
      vars := Vars(NoPacket, 0, 0, false, 0, 0, 0, 0, [leg, leg]);
      ghost var start := State(seq(SLOTS, _ => Slot(0, 0, [])), Idle, Parked, 0, false, 0, 0, 0, map[], [],
                               Counters(0, 0, 0, 0, 0, 0, 0, 0, 0));
      model := start;
      run := Run(config, [start], []);
    }

    /** HandlePacket up to and including the duplicate check. `pos` is the packet's true position. */
    method HandlePacket(leg: nat, data: seq<Byte>, f: RtpPacket.Format, ghost pos: int)
      requires Valid() && model.writer.Idle? && leg < 2 && |data| > 12
      requires RtpPacket.Parse(data, f).Usable? ==> RtpPacket.Parse(data, f).seqNo == pos % SEQ_RANGE
      modifies this
      ensures var p := RtpPacket.Parse(data, f);
              && vars.legs == (if p.Ignored? then old(vars).legs
                               else old(vars).legs[leg := LossCounter.Account(old(vars).legs[leg], p.seqNo)])
              && match p
                 case Ignored => Valid() && model == old(model) && run == old(run)
                 case Unusable(_, _) => Took(Reject)
                 case Usable(_, _, audio) => Took(Arrive(leg, pos, audio))
    {
      var p := RtpPacket.ParsePacket(data, f);
      if p.Ignored? {
        return;
      }
      vars := vars.(legs := vars.legs[leg := LossCounter.Account(vars.legs[leg], p.seqNo)]);
      if p.Unusable? {
        Record(Reject);
      } else {
        CheckDuplicate(leg, p.seqNo, p.audio, pos);
      }
    }

    /** The packet is counted already; discard it, or get ready to store it. */
    method CheckDuplicate(leg: nat, seqNo: nat, audio: Audio, ghost pos: int)
      requires RingShown() && Traced() && model.writer.Idle? && seqNo == pos % SEQ_RANGE
      requires Shows(vars, model.(count := model.count.(received := model.count.received + 1)))
      modifies this
      ensures Took(Arrive(leg, pos, audio)) && vars.legs == old(vars).legs
    {
      if generation[seqNo % SLOTS] == seqNo + 1 {
        vars := vars.(duplicates := vars.duplicates + 1);
      } else {
        vars := vars.(pending := Packet(leg, seqNo, audio, false, 0));
      }
      Record(Arrive(leg, pos, audio));
    }

    method ResizeSlot()
      requires Valid() && Enabled(model, Resize)
      modifies this, samples
      ensures Took(Resize)
    {
      var i := vars.pending.seqNo % SLOTS;
      samples[i] := Resized(samples[i], |vars.pending.audio|);
      vars := vars.(pending := vars.pending.(sized := true));
      Record(Resize);
    }

    method StoreNext()
      requires Valid() && Enabled(model, StoreSample)
      modifies this, samples
      ensures Took(StoreSample)
    {
      var i, k := vars.pending.seqNo % SLOTS, vars.pending.filled;
      samples[i] := samples[i][k := vars.pending.audio[k]];
      vars := vars.(pending := vars.pending.(filled := k + 1));
      Record(StoreSample);
    }

    method PublishSlot()
      requires Valid() && Enabled(model, Publish)
      modifies this, generation
      ensures Took(Publish)
    {
      var seqNo := vars.pending.seqNo;
      generation[seqNo % SLOTS] := seqNo + 1;
      if vars.pending.leg == 1 {
        vars := vars.(secondary := vars.secondary + 1);
      }
      if !vars.haveFirst {
        vars := vars.(haveFirst := true, firstSeq := seqNo);
      }
      vars := vars.(pending := NoPacket);
      Record(Publish);
    }

    method LookAtCursor() returns (present: bool)
      requires Valid() && Enabled(model, Look)
      modifies this`model, this`run
      ensures Took(Look) && (present <==> model.reader == Matched)
    {
      present := generation[vars.nextSeq % SLOTS] == vars.nextSeq + 1;
      Record(Look);
    }

    method FeedMeters() returns (fed: Audio)
      requires Valid() && Enabled(model, Feed)
      modifies this`model, this`run
      ensures Took(Feed) && model.reader == Fed(fed)
    {
      fed := samples[vars.nextSeq % SLOTS];
      Record(Feed);
    }

    /** With packets stored less than one ring away from the cursor, what the sound card gets is what
        the meters saw; inside the window it is the first published copy of the cursor's position. */
    method WriteOut() returns (written: Audio)
      requires Valid() && Enabled(model, Write)
      modifies this`model, this`run
      ensures Took(Write) && model.reader == Written(old(model.reader.fed), written)
      ensures NearRun(run) ==> written == old(model.reader.fed)
      ensures forall late: nat, lead: nat :: WindowedRun(run, late, lead) ==>
                model.cursor in model.published && written == old(model.reader.fed) == model.published[model.cursor]
    {
      written := samples[vars.nextSeq % SLOTS];
      Record(Write);
      if NearRun(run) {
        SteadyAlways(run, |run.states| - 1);
      }
      forall late: nat, lead: nat | WindowedRun(run, late, lead)
        ensures model.cursor in model.published && written == old(model.reader.fed) == model.published[model.cursor]
      {
        InvAlways(run, late, lead, |run.states| - 1);
      }
    }

    method ClearPlayed()
      requires Valid() && Enabled(model, Clear)
      modifies this, generation
      ensures Took(Clear)
    {
      generation[vars.nextSeq % SLOTS] := 0;
      Shifted(model.cursor, 1);
      vars := vars.(played := vars.played + 1, nextSeq := (vars.nextSeq + 1) % SEQ_RANGE);
      Record(Clear);
    }

    /** The probe loop over the 16 positions after the cursor, in 16-bit arithmetic. */
    method ProbeAhead() returns (newer: bool)
      requires Valid()
      ensures newer <==> NewerWaiting(model)
    {
      var ahead := 1;
      while ahead <= 16
        invariant 1 <= ahead <= 17
        invariant forall p :: model.cursor + 1 <= p < model.cursor + ahead ==> At(model, p).gen != Marker(p)
      {
        var seqNo := (vars.nextSeq + ahead) % SEQ_RANGE;
        ghost var p := model.cursor + ahead;
        Shifted(model.cursor, ahead);
        assert generation[seqNo % SLOTS] == At(model, p).gen;
        if generation[seqNo % SLOTS] == seqNo + 1 {
          return true;
        }
        ahead := ahead + 1;
      }
      return false;
    }

    /** Without a packet at the cursor: park if nothing is being received, else conceal or wait. */
    method HandleMiss(receiving: bool, queued: int, queuedAfter: int)
      requires Valid() && Enabled(model, Miss(receiving, queued, queuedAfter))
      modifies this
      ensures Took(Miss(receiving, queued, queuedAfter))
      ensures model.reader == Parked <==> !receiving
      ensures receiving ==>
                var moved := if TimeToConceal(old(model), config, queued, queuedAfter) then 1 else 0;
                && vars.concealed == old(vars).concealed + moved
                && vars.nextSeq == (old(vars).nextSeq + moved) % 65536
                && model.cursor == old(model).cursor + moved
    {
      ActOnMiss(receiving, queued, queuedAfter);
      ghost var i := |run.steps| - 1;
      assert run.states[i] == old(model) && run.steps[i] == Miss(receiving, queued, queuedAfter);
      ParksIff(run, i);
      if receiving {
        ConcealsIff(run, i);
        Shifted(old(model).cursor, if model.cursor == old(model).cursor then 0 else 1);
      }
    }

    method ActOnMiss(receiving: bool, queued: int, queuedAfter: int)
      requires Valid() && Enabled(model, Miss(receiving, queued, queuedAfter))
      modifies this
      ensures Took(Miss(receiving, queued, queuedAfter))
    {
      if !receiving {
        vars := vars.(haveFirst := false);
        Record(Miss(receiving, queued, queuedAfter));
        return;
      }
      var newer := ProbeAhead();
      var conceal := queued <= 2 * config.framesPerPacket || (newer && queuedAfter < config.targetFrames / 2);
      assert conceal <==> MustConceal(model, config, queued, queuedAfter);
      if conceal {
        Shifted(model.cursor, 1);
        vars := vars.(concealed := vars.concealed + 1, nextSeq := (vars.nextSeq + 1) % SEQ_RANGE);
      }
      Record(Miss(receiving, queued, queuedAfter));
    }

    method ResumePlayout()
      requires Valid() && Enabled(model, Resume)
      modifies this
      ensures Took(Resume)
    {
      vars := vars.(nextSeq := vars.firstSeq);
      Record(Resume);
    }

    method SteerDrift(queued: int) returns (drop: bool)
      requires Valid() && Enabled(model, Drift(queued))
      modifies this`model, this`run
      ensures Took(Drift(queued)) && (drop <==> model.reader == DropMatched)
    {
      drop := queued > config.targetFrames + 4 * config.framesPerPacket
              && generation[vars.nextSeq % SLOTS] == vars.nextSeq + 1;
      Record(Drift(queued));
    }

    method ClearDropped()
      requires Valid() && Enabled(model, DropClear)
      modifies this, generation
      ensures Took(DropClear)
    {
      generation[vars.nextSeq % SLOTS] := 0;
      Shifted(model.cursor, 1);
      vars := vars.(nextSeq := (vars.nextSeq + 1) % SEQ_RANGE);
      Record(DropClear);
    }
  }
}
