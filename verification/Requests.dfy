/** Requests (core.py:20-97) and their paged state (engine.py:44-49). */
module Requests {
  import opened Paging
  import opened TreeModel
  import opened Wrappers

  datatype Status = WAITING | RUNNING | FINISHED

  /** `TokenOutput`, without the decoded text. */
  datatype TokenOutput = TokenOutput(tokenId: int, finished: bool)

  /** `PagedRequestState` */
  datatype PagedState = PagedState(pageIndices: seq<int>, kvLen: nat)

  class Request {
    const inputIds: seq<int>
    const maxNewTokens: nat
    var outputIds: seq<int>
    var status: Status
    var tokenQueue: seq<TokenOutput>
    var kvCache: Option<PagedState>
    var cacheHitTokens: nat
    var prefillOffset: nat
    var radixLockNode: RadixNode?
    var needsRetract: bool
    /** How many of the pages are borrowed from the prefix cache, and the entry in the page
        ledger under which the others are kept. */
    ghost var borrowed: nat
    ghost var ticket: nat

    constructor (inputIds: seq<int>, maxNewTokens: nat)
      ensures this.inputIds == inputIds && this.maxNewTokens == maxNewTokens
      ensures outputIds == [] && status == WAITING && tokenQueue == [] && kvCache == None
      ensures cacheHitTokens == 0 && prefillOffset == 0 && radixLockNode == null && !needsRetract
    {
      this.inputIds, this.maxNewTokens := inputIds, maxNewTokens;
      outputIds, status, tokenQueue, kvCache := [], WAITING, [], None;
      cacheHitTokens, prefillOffset, radixLockNode, needsRetract := 0, 0, null, false;
    }

    /** `is_finished` */
    predicate IsFinished()
      reads this`outputIds
    {
      |outputIds| >= maxNewTokens
    }

    /** `prefill_done` */
    predicate PrefillDone()
      reads this`prefillOffset
    {
      prefillOffset >= |inputIds|
    }

    /** `paged_peak_pages_for_request` (engine.py:216-220) */
    function PeakPages(P: nat): nat
      requires P >= 1
    {
      PagesNeeded(|inputIds| + maxNewTokens, P)
    }

    /** The whole pages of the prompt. */
    ghost function Prompt(P: nat): Path
      requires P >= 1
    {
      Blocks(inputIds, P)
    }
  }
}
