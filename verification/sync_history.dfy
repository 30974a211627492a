/** The receiving handlers piece by piece, and what the receiver of a v2 synchronisation was told to
    send in every run. */
module SyncHistory {
  import opened Varints
  import opened Blocks
  import opened TransferCodec
  import opened Sync

  // ---------------------------------------------------------------- the pieces

  /** A chunk can be stored exactly in a partial block that has it and room for its bytes; they go where
      the chunk starts, it becomes available, and nothing else changes. */
  lemma {:induction false} StoreChunkIff(b: Block, k: nat, data: seq<Atom>)
    ensures StoreChunk(b, k, data).Some? <==>
            b.Partial? && |data| <= CHUNK_SIZE && CHUNK_SIZE * k + |data| <= |b.data| && k < |b.available|
    ensures StoreChunk(b, k, data).Some? ==>
              var b' := StoreChunk(b, k, data).value;
              && b'.Partial? && b'.id == b.id && |b'.data| == |b.data| && b'.available == b.available[k := true]
              && forall p :: 0 <= p < |b.data| ==>
                   var q := p - CHUNK_SIZE * k; b'.data[p] == if 0 <= q < |data| then data[q] else b.data[p]
  {
  }

  /** The first transfer whose ids contain the chunk is found. */
  lemma {:induction false} FindsFirst(ts: seq<Transfer>, chunkid: nat, i: nat)
    requires i < |ts| && ts[i].start <= chunkid < ts[i].end
    requires forall j :: 0 <= j < i ==> !(ts[j].start <= chunkid < ts[j].end)
    ensures FindTransfer(ts, chunkid) == Some(ts[i])
  {
    if i > 0 {
      assert !(ts[0].start <= chunkid < ts[0].end);
      assert forall j :: 0 <= j < i - 1 ==> ts[1..][j] == ts[j + 1];
      FindsFirst(ts[1..], chunkid, i - 1);
    }
  }

  /** Removing a transfer takes out its first occurrence and keeps the others in their order. */
  lemma {:induction false} RemovesFirst(ts: seq<Transfer>, t: Transfer, i: nat)
    requires i < |ts| && ts[i] == t && t !in ts[..i]
    ensures Remove(ts, t) == ts[..i] + ts[i + 1..]
  {
    if i > 0 {
      assert ts[..i][0] == ts[0] && ts[1..][..i - 1] == ts[..i][1..];
      RemovesFirst(ts[1..], t, i - 1);
      assert ts[1..][i..] == ts[i + 1..];
      assert [ts[0]] + (ts[..i][1..] + ts[i + 1..]) == ts[..i] + ts[i + 1..];
    } else {
      assert ts[..0] + ts[1..] == ts[1..];
    }
  }

  lemma {:induction false} RemovesNone(ts: seq<Transfer>, t: Transfer)
    requires t !in ts
    ensures Remove(ts, t) == ts
  {
    if ts != [] {
      RemovesNone(ts[1..], t);
    }
  }

  // ---------------------------------------------------------------- statuses due

  /** Payloads that arrived on the open connection. */
  ghost function PayloadsIn(cfg: Config, steps: seq<Step>): nat
    requires Exec(cfg, steps).Some?
  {
    if steps == [] then 0
    else
      var before, step := steps[..|steps| - 1], steps[|steps| - 1];
      PayloadsIn(cfg, before) + if step.PayloadArrives? && Exec(cfg, before).value.peer.conn.Some? then 1 else 0
  }

  /** Responses that arrived on the open connection while no transfer was live. */
  ghost function FirstResponsesIn(cfg: Config, steps: seq<Step>): nat
    requires Exec(cfg, steps).Some?
  {
    if steps == [] then 0
    else
      var before, step := steps[..|steps| - 1], steps[|steps| - 1];
      FirstResponsesIn(cfg, before) + if step.ResponseArrives? && Idle(Exec(cfg, before).value.peer) then 1 else 0
  }

  predicate Idle(p: Peer) { p.conn.Some? && p.conn.value.transfers == [] }

  ghost function StatusesIn(cfg: Config, steps: seq<Step>): nat
    requires Exec(cfg, steps).Some?
  {
    if steps == [] then 0
    else StatusesIn(cfg, steps[..|steps| - 1]) + if steps[|steps| - 1].StatusSent? then 1 else 0
  }

  lemma {:induction false} DueStep(cfg: Config, s: State, step: Step)
    requires Apply(cfg, s, step).Some?
    ensures Apply(cfg, s, step).value.due
         == s.due + (if step.PayloadArrives? && s.peer.conn.Some? then 1 else 0)
                  + (if step.ResponseArrives? && Idle(s.peer) then 1 else 0)
                  - (if step.StatusSent? then 1 else 0)
  {
  }

  /** In every run the statuses sent and those still due are one for each payload that arrived on the
      open connection and one for each response that found no transfer live. */
  lemma {:induction false} StatusesDue(cfg: Config, steps: seq<Step>)
    requires Exec(cfg, steps).Some?
    ensures StatusesIn(cfg, steps) + Exec(cfg, steps).value.due == PayloadsIn(cfg, steps) + FirstResponsesIn(cfg, steps)
  {
    if steps != [] {
      var before := steps[..|steps| - 1];
      StatusesDue(cfg, before);
      DueStep(cfg, Exec(cfg, before).value, steps[|steps| - 1]);
    }
  }

  // ---------------------------------------------------------------- the network

  /** `b` has every message that `a` has. */
  ghost predicate Keeps(a: State, b: State) {
    a.requests <= b.requests && a.responses <= b.responses && a.payloads <= b.payloads && a.statuses <= b.statuses
  }

  /** What was ever sent can still be delivered. */
  lemma {:induction false} NetworkKeeps(cfg: Config, steps: seq<Step>, m: nat)
    requires Exec(cfg, steps).Some? && m <= |steps|
    ensures Exec(cfg, steps[..m]).Some?
    ensures Keeps(Exec(cfg, steps[..m]).value, Exec(cfg, steps).value)
    decreases |steps|
  {
    if m < |steps| {
      var shorter := steps[..|steps| - 1];
      NetworkKeeps(cfg, shorter, m);
      assert shorter[..m] == steps[..m];
    } else {
      assert steps[..m] == steps;
    }
  }
}
