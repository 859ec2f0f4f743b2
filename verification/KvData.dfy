/** What the pools store (kv_memory_pool.py:51-60, hicache.py:66-74): a page holds one entry per
    token slot; an entry stands for the keys and values of one token over all layers, which the
    memory manager never looks into. */
module KvData {
  datatype TokenKV = TokenKV(keys: seq<real>, values: seq<real>)

  type PageData = seq<TokenKV>

  /** A page as `torch.zeros` creates it. */
  function ZeroKV(): TokenKV {
    TokenKV([], [])
  }

  function ZeroPage(pageSize: nat): PageData {
    seq(pageSize, _ => ZeroKV())
  }
}
