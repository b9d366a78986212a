/** The synchronous consumer (`gcn_gx_tick` with the pipeline off): the simple
    form that the pipeline has to be indistinguishable from. */
module GxSync {
  import opened Bytes
  import opened GxDecode
  import opened GxStream
  import opened CommandFifo

  const BUDGET := 1024        // bytes drained per tick
  const STAGING := 0x4_0000   // capacity of the staging buffer

  datatype Machine = Machine(arch: Arch, g: Gx, buf: seq<u8>)

  /** Stage `bytes` and execute what is whole. */
  function Feed(m: Machine, bytes: seq<u8>): Machine {
    m.(g := Run(m.g, m.buf + bytes).g, buf := Leftover(m.g, m.buf + bytes))
  }

  predicate SyncGuard(m: Machine, drained: nat) {
    drained < BUDGET && CanTake(m.arch) && |m.buf| + CHUNK <= STAGING
  }

  function SyncChunk(m: Machine): Machine
    requires CanTake(m.arch)
  {
    Feed(m, ChunkAt(m.arch)).(arch := TakeChunk(m.arch))
  }

  function SyncLoop(m: Machine, drained: nat): Machine
    decreases BUDGET - drained
  {
    if SyncGuard(m, drained) then SyncLoop(SyncChunk(m), drained + CHUNK) else m
  }

  function SyncTick(m: Machine): Machine {
    if m.arch.cp.readEnable then SyncLoop(m, 0) else m
  }

  /** A tick only adds to what has been executed. */
  lemma {:induction false} SyncLoopExtends(m: Machine, drained: nat)
    ensures Extends(SyncLoop(m, drained).g, m.g)
    decreases BUDGET - drained
  {
    hide Run, Leftover, CanTake, ChunkAt, TakeChunk;
    if SyncGuard(m, drained) {
      RunExtends(m.g, m.buf + ChunkAt(m.arch));
      SyncLoopExtends(SyncChunk(m), drained + CHUNK);
    }
  }
}
