/** The loops by which `create` fills a new file, and the state of the step system they amount to (src/init.rs). */
module Memory {
  import opened Base
  import opened SizeClasses
  import opened Address
  import Allocator
  import Pool = GlobalFreeList
  import Lists = LocalLists
  import Local = WorkerLocalList
  import AllocatorRuns

  datatype Heads = Heads(partial: nat, full: nat)

  /** What the header holds for one worker. */
  datatype WorkerHeads = WorkerHeads(claimed: bool, bytes: nat, heads: seq<Heads>)

  datatype SlabMeta = SlabMeta(owner: nat, sizeIndex: nat, remoteHead: nat)

  const NULL_HEADS: Heads := Heads(NULL_U32, NULL_U32)

  const FRESH_WORKER: WorkerHeads := WorkerHeads(false, 0, seq(NUM_SIZE_CLASSES, _ => NULL_HEADS))

  /** The regions of the mapped file before the free stacks. */
  class Memory {
    var globalHead: nat
    const workers: array<WorkerHeads>
    const nodes: array<Local.Node>
    const metas: array<SlabMeta>

    /** Wraps a mapping of the right size, whatever bytes it holds. */
    constructor (globalHead: nat, workers: array<WorkerHeads>, nodes: array<Local.Node>, metas: array<SlabMeta>)
      ensures this.globalHead == globalHead && this.workers == workers && this.nodes == nodes && this.metas == metas
    {
      this.globalHead, this.workers, this.nodes, this.metas := globalHead, workers, nodes, metas;
    }

    /** The file's words are those of a state of the step system. */
    ghost predicate Represents(cfg: Config, s: Allocator.State)
      reads this, workers, nodes, metas
    {
      && workers.Length == cfg.numWorkers && nodes.Length == metas.Length == cfg.numSlabs && Allocator.Sized(cfg, s)
      && globalHead == s.pool.head
      && Local.Globals(nodes[..]) == s.pool.links && Local.Locals(nodes[..]) == s.local.nodes
      && (forall w: nat {:trigger workers[w]} :: w < cfg.numWorkers ==>
            && workers[w].claimed == s.claimed[w] && workers[w].bytes == s.bytes[w] && |workers[w].heads| == NUM_SIZE_CLASSES
            && forall c: nat :: c < NUM_SIZE_CLASSES ==>
                 && workers[w].heads[c].partial == s.local.heads[Lists.Key(w, c, false)]
                 && workers[w].heads[c].full == s.local.heads[Lists.Key(w, c, true)])
      && (forall i: nat {:trigger metas[i]} :: i < cfg.numSlabs ==>
            metas[i] == SlabMeta(s.slabs[i].owner, s.slabs[i].sizeIndex, s.slabs[i].head))
    }

    method WorkerLocalLists()
      modifies workers
      ensures forall w: nat :: w < workers.Length ==> workers[w] == FRESH_WORKER
    {
      for w := 0 to workers.Length
        invariant forall v: nat :: v < w ==> workers[v] == FRESH_WORKER
      {
        var heads := [];
        for c := 0 to NUM_SIZE_CLASSES
          invariant |heads| == c && forall d: nat :: d < c ==> heads[d] == NULL_HEADS
        {
          heads := heads + [NULL_HEADS];
        }
        workers[w] := WorkerHeads(false, 0, heads);
        assert heads == FRESH_WORKER.heads;
      }
    }

    /** Every slab is linked to the next one; the head is set last. */
    method FreeListElements()
      requires 0 < nodes.Length < NULL_U32
      modifies this`globalHead, nodes
      ensures Local.Globals(nodes[..]) == Pool.Initial(nodes.Length, 0).links
      ensures Local.Locals(nodes[..]) == seq(nodes.Length, _ => Lists.NULL_LINK)
      ensures globalHead == Pool.Initial(nodes.Length, 0).head
    {
      for i := 0 to nodes.Length
        invariant forall j: nat :: j < i ==>
          nodes[j] == Local.Node(if j == nodes.Length - 1 then NULL_U32 else j + 1, Lists.NULL_LINK)
      {
        var next := if i == nodes.Length - 1 then NULL_U32 else i + 1;
        nodes[i] := Local.Node(next, Local.Link(NULL_U32, NULL_U32));
      }
      globalHead := Pool.PackIndex(0, 0);
    }

    method SlabSharedMeta()
      modifies metas
      ensures forall i: nat :: i < metas.Length ==> metas[i] == SlabMeta(NULL_U32, 0, NULL_U16)
    {
      for i := 0 to metas.Length
        invariant forall j: nat :: j < i ==> metas[j] == SlabMeta(NULL_U32, 0, NULL_U16)
      {
        metas[i] := SlabMeta(NULL_U32, 0, NULL_U16);
      }
    }

    /** `initialize::allocator`: whatever the file held, it now holds the initial state every run starts from. */
    method Initialize(ghost cfg: Config, ghost threads: nat)
      requires ValidConfig(cfg) && workers.Length == cfg.numWorkers && nodes.Length == metas.Length == cfg.numSlabs
      modifies this`globalHead, workers, nodes, metas
      ensures Represents(cfg, Allocator.Initial(cfg, threads))
    {
      WorkerLocalLists();
      FreeListElements();
      SlabSharedMeta();
      InitialWords(cfg, threads);
      hide ValidConfig, Allocator.Initial;
    }
  }

  /** The words of the initial state. */
  lemma InitialWords(cfg: Config, threads: nat)
    requires ValidConfig(cfg)
    ensures var s := Allocator.Initial(cfg, threads);
      && Allocator.Sized(cfg, s)
      && s.pool.head == Pool.Initial(cfg.numSlabs, 0).head && s.pool.links == Pool.Initial(cfg.numSlabs, 0).links
      && s.local.nodes == seq(cfg.numSlabs, _ => Lists.NULL_LINK)
      && (forall w: nat :: w < cfg.numWorkers ==> !s.claimed[w] && s.bytes[w] == 0)
      && (forall w: nat, c: nat, f: bool {:trigger Lists.Key(w, c, f)} :: w < cfg.numWorkers && c < NUM_SIZE_CLASSES ==>
            s.local.heads[Lists.Key(w, c, f)] == NULL_U32)
      && (forall i: nat :: i < cfg.numSlabs ==>
            s.slabs[i].owner == NULL_U32 && s.slabs[i].sizeIndex == 0 && s.slabs[i].head == NULL_U16)
  {
    AllocatorRuns.InitialSized(cfg, threads);
    hide ValidConfig;
  }
}
