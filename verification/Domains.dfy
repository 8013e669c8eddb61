/** What the runtime authenticates or hashes for one purpose never has the form of another (src/cache.rs,
    src/checkpoint.rs, src/environment.rs). */
module Domains {
  import opened Bytes
  import DiskCache
  import Checkpoint
  import Environment

  /** No tag of a cache entry is a tag of a checkpoint under the same key, and no identity preimage is an input of
      either. */
  lemma Separate(i: DiskCache.Identity, artifact: Bytes, body: Bytes, c: Environment.Content)
    requires Environment.Fits(c)
    ensures DiskCache.MacInput(i, artifact) != Checkpoint.CHECKPOINT_DOMAIN + body
    ensures Environment.Preimage(c) != DiskCache.MacInput(i, artifact)
    ensures Environment.Preimage(c) != Checkpoint.CHECKPOINT_DOMAIN + body
  {
    var cache, checkpoint := DiskCache.MacInput(i, artifact), Checkpoint.CHECKPOINT_DOMAIN + body;
    assert cache[21] == 'a' as int && checkpoint[21] == 'w' as int;
    assert cache[7] == '-' as int && checkpoint[7] == '-' as int && Environment.Preimage(c)[7] == '.' as int;
  }
}
