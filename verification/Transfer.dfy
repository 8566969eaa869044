/**
 What both ends of a file transfer share: the transfer's fixed data, the messages, the durable status
 values and the events a handler can meet.
 */
module Transfer {
  import opened Common
  import opened ChunkPlan
  import opened Disk

  /** A hex digest. */
  type Hash = string

  /** The fixed data of one transfer.  `hash` stands for BLAKE3; `seal` (with its random nonce) and
      `open` stand for the session cipher. */
  datatype Config = Config(
    src: seq<byte>,
    plan: seq<ChunkMeta>,
    fileHash: Hash,
    hash: seq<byte> -> Hash,
    seal: (nat, seq<byte>) -> seq<byte>,
    open: seq<byte> -> Option<seq<byte>>)
  {
    /** The plan is a plan for the source, and opening undoes sealing. */
    ghost predicate Valid() {
      && Tiles(plan, |src|)
      && Indexed(plan)
      && (forall nonce, plain :: open(seal(nonce, plain)) == Some(plain))
    }

    function N(): nat { |plan| }

    /** Plaintext of chunk k. */
    function Data(k: nat): seq<byte>
      requires Valid() && k < N()
    {
      TilesBound(plan, |src|, k);
      ChunkData(src, plan[k])
    }
  }

  /** Every transfer of at most 2^32 chunks yields a valid configuration. */
  lemma ConfigOfPlan(c: Config, size: nat)
    requires size > 0 && ChunkCount(|c.src|, size) <= TWO_TO_THE_32
    requires c.plan == Plan(|c.src|, size)
    requires forall nonce, plain :: c.open(c.seal(nonce, plain)) == Some(plain)
    ensures c.Valid()
  {
    PlanTiles(|c.src|, size);
    IndexedIff(|c.src|, size);
  }

  datatype Status = Pending | AwaitingAcceptance | InProgress | Paused | Declined | Failed | Complete

  datatype Message =
    | Request
    | Acceptance(accepted: bool, resumeFrom: nat, missing: Option<set<nat>>)
    | Chunk(index: nat, offset: nat, data: seq<byte>, chunkHash: Hash)
    | Ack(index: nat, confirmed: nat)
    | CompleteMsg(fileHash: Hash)
    | ErrorMsg
    | CancelMsg

  /** The index of the acknowledgement of a whole file (`u32::MAX`). */
  const FINAL_ACK: nat := TWO_TO_THE_32 - 1

  const MAX_PENDING_ACKS: nat := 50
  const MAX_TIMEOUT_RETRIES: nat := 12

  /** What a handler meets at its next step. */
  datatype Input =
    | Go(nonce: nat)                        // carry on; the nonce is used if the step seals a chunk
    | Got(msg: Message)                     // a read returned a message
    | Timeout                               // a read timed out
    | Broken                                // a read or an acknowledging write failed
    | CancelRequest                         // the cancel token fired
    | CrashToken                            // the crash token fired
    | Accept | Decline                      // the user's decision
    | NoSpace                               // not enough disk space
    | Moved(content: Option<seq<byte>>)     // the recomputed destination differs; what its part file holds
    | Torn(count: nat)                      // a write was interrupted after this many bytes
    | Fault                                 // an operation returned an error through `?`

  /** Chunk j is sent under a given answer to the request: by missing list if there is one, by offset otherwise. */
  predicate Selected(c: Config, resumeFrom: nat, missing: Option<set<nat>>, j: nat)
    requires j < c.N()
  {
    match missing
    case Some(list) => j in list
    case None => c.plan[j].End() > resumeFrom
  }

  /** The handler's status fix-up when it returns: nothing is left looking active. */
  function Settle(status: Status, failed: bool): Status {
    if status in {InProgress, AwaitingAcceptance, Pending} then
      if failed then Failed else Paused
    else status
  }
}
