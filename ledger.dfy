/** The hash-chained ledger: blocks that store their predecessor's hash and
    channels that only ever append blocks to a chain starting at a genesis
    block. SHA-256 over the JSON serialisation of a block is the parameter
    `hash`, an arbitrary function of the block's index, timestamp, data and
    previous hash. */
module Ledger {
  import opened Values

  /** What `calculate_hash` computes from (index, timestamp, data,
      previous_hash). */
  type HashFn = (int, string, Fields, string) -> string

  datatype Block = Block(index: int, timestamp: string, data: Fields, previousHash: string, hash: string)

  /** The hash of a block's four other fields. */
  function CalculateHash(h: HashFn, b: Block): string {
    h(b.index, b.timestamp, b.data, b.previousHash)
  }

  /** The stored hash is the hash of the block's current contents. */
  predicate HashIntact(h: HashFn, b: Block) {
    b.hash == CalculateHash(h, b)
  }

  /** A block as constructed: its hash is computed once, from the other four
      fields, and stored. */
  function NewBlock(h: HashFn, index: int, timestamp: string, data: Fields, previousHash: string): (b: Block)
    ensures HashIntact(h, b)
    ensures b.index == index && b.timestamp == timestamp && b.data == data && b.previousHash == previousHash
  {
    Block(index, timestamp, data, previousHash, h(index, timestamp, data, previousHash))
  }

  /** The payload of a channel's genesis block. */
  function GenesisData(channel: string): (d: Fields)
    ensures d.Keys == {"type", "channel"}
    ensures d["type"] == VStr("genesis") && d["channel"] == VStr(channel)
  {
    map["type" := VStr("genesis"), "channel" := VStr(channel)]
  }

  /** Link `i` holds: block `i` still hashes to its stored hash and stores
      the hash of block `i - 1`. */
  predicate LinkValid(h: HashFn, blocks: seq<Block>, i: int)
    requires 0 < i < |blocks|
  {
    HashIntact(h, blocks[i]) && blocks[i].previousHash == blocks[i - 1].hash
  }

  /** What `verify_integrity` accepts: every link from block 1 on holds.
      Block 0's own hash is not part of it. */
  predicate ChainValid(h: HashFn, blocks: seq<Block>) {
    forall i :: 0 < i < |blocks| ==> LinkValid(h, blocks, i)
  }

  /** The block `add_data` appends to `blocks`: its index is the old length
      and its previous hash that of the former last block ("0" for none). */
  function NextBlock(h: HashFn, blocks: seq<Block>, data: Fields, now: string): (b: Block)
    ensures HashIntact(h, b) && b.index == |blocks| && b.data == data && b.timestamp == now
    ensures b.previousHash == if blocks == [] then "0" else blocks[|blocks| - 1].hash
  {
    NewBlock(h, |blocks|, now, data, if blocks == [] then "0" else blocks[|blocks| - 1].hash)
  }

  /** The chain after `add_data` of each payload in turn. */
  function AppendAll(h: HashFn, blocks: seq<Block>, payloads: seq<Fields>, now: string): (r: seq<Block>)
    ensures |r| == |blocks| + |payloads|
    ensures r[..|blocks|] == blocks
    ensures forall k :: 0 <= k < |payloads| ==> r[|blocks| + k].data == payloads[k]
  {
    if payloads == [] then blocks
    else
      var before := AppendAll(h, blocks, payloads[..|payloads| - 1], now);
      before + [NextBlock(h, before, payloads[|payloads| - 1], now)]
  }

  /** One more payload appends one more block. */
  lemma AppendAllSnoc(h: HashFn, blocks: seq<Block>, payloads: seq<Fields>, p: Fields, now: string)
    ensures AppendAll(h, blocks, payloads + [p], now)
         == AppendAll(h, blocks, payloads, now) + [NextBlock(h, AppendAll(h, blocks, payloads, now), p, now)]
  {
    assert (payloads + [p])[..|payloads|] == payloads;
  }

  /** Appending a block keeps a valid chain valid. */
  lemma AppendKeepsValid(h: HashFn, blocks: seq<Block>, data: Fields, now: string)
    requires ChainValid(h, blocks)
    ensures ChainValid(h, blocks + [NextBlock(h, blocks, data, now)])
  {
    var r := blocks + [NextBlock(h, blocks, data, now)];
    forall i | 0 < i < |r| ensures LinkValid(h, r, i) {
      if i < |blocks| {
        assert LinkValid(h, blocks, i);
      }
    }
  }

  /** A valid chain stays valid after any sequence of `add_data` calls. */
  lemma {:induction false} AppendAllKeepsValid(h: HashFn, blocks: seq<Block>, payloads: seq<Fields>, now: string)
    requires ChainValid(h, blocks)
    ensures ChainValid(h, AppendAll(h, blocks, payloads, now))
  {
    if payloads != [] {
      AppendAllKeepsValid(h, blocks, payloads[..|payloads| - 1], now);
      AppendKeepsValid(h, AppendAll(h, blocks, payloads[..|payloads| - 1], now), payloads[|payloads| - 1], now);
    }
  }

  /** Block 0's own hash is never checked: replacing block 0 by any block
      with the same stored hash leaves validity as it was. */
  lemma GenesisContentsNotChecked(h: HashFn, blocks: seq<Block>, g: Block)
    requires |blocks| >= 1 && g.hash == blocks[0].hash
    ensures ChainValid(h, blocks[0 := g]) == ChainValid(h, blocks)
  {
    var r := blocks[0 := g];
    forall i | 0 < i < |blocks| ensures LinkValid(h, r, i) == LinkValid(h, blocks, i) {
      assert r[i] == blocks[i];
    }
  }

  /** Changing a later block's contents while keeping its stored hash is
      detected, provided the hash tells the new contents from the old (no
      collision at this pair of inputs). */
  lemma {:induction false} EditedBlockDetected(h: HashFn, blocks: seq<Block>, i: int, b: Block)
    requires ChainValid(h, blocks) && 0 < i < |blocks|
    requires b.hash == blocks[i].hash
    requires CalculateHash(h, b) != CalculateHash(h, blocks[i])
    ensures !ChainValid(h, blocks[i := b])
  {
    assert LinkValid(h, blocks, i);
    assert !LinkValid(h, blocks[i := b], i);
  }

  /** Re-hashing an edited block so that its own hash holds again breaks the
      link from the block after it. */
  lemma {:induction false} RehashedBlockDetected(h: HashFn, blocks: seq<Block>, i: int, b: Block)
    requires ChainValid(h, blocks) && 0 < i < |blocks| - 1
    requires HashIntact(h, b) && b.hash != blocks[i].hash
    ensures !ChainValid(h, blocks[i := b])
  {
    assert LinkValid(h, blocks, i + 1);
    assert !LinkValid(h, blocks[i := b], i + 1);
  }

  /** A named channel of blocks, created with a genesis block. */
  class DataChannel {
    const name: string
    const description: string
    const hash: HashFn
    var blocks: seq<Block>
    /** The block the channel was created with. */
    ghost const genesis: Block

    /** The channel as built by its constructor and `AddData`: the genesis
        block still at index 0, every block at its own index, and every
        link valid. */
    ghost predicate Valid()
      reads this
    {
      && |blocks| >= 1
      && blocks[0] == genesis
      && (forall i :: 0 <= i < |blocks| ==> blocks[i].index == i)
      && ChainValid(hash, blocks)
    }

    /** A channel holding only its genesis block: index 0, previous hash
        "0", and the channel's name in its data. */
    constructor (name: string, description: string, hash: HashFn, now: string)
      ensures this.name == name && this.description == description && this.hash == hash
      ensures genesis == NewBlock(hash, 0, now, GenesisData(name), "0")
      ensures blocks == [genesis]
      ensures Valid()
    {
      this.name := name;
      this.description := description;
      this.hash := hash;
      genesis := NewBlock(hash, 0, now, GenesisData(name), "0");
      blocks := [NewBlock(hash, 0, now, GenesisData(name), "0")];
    }

    /** Appends one block holding `data` and returns it; earlier blocks are
        untouched. */
    method AddData(data: Fields, now: string) returns (b: Block)
      modifies this`blocks
      ensures b == NextBlock(hash, old(blocks), data, now)
      ensures blocks == old(blocks) + [b]
      ensures old(Valid()) ==> Valid()
    {
      var index := |blocks|;
      var previousHash := if blocks != [] then blocks[|blocks| - 1].hash else "0";
      b := NewBlock(hash, index, now, data, previousHash);
      if Valid() {
        AppendKeepsValid(hash, blocks, data, now);
      }
      blocks := blocks + [b];
    }

    /** Re-checks every stored hash and every link from block 1 on,
        stopping at the first failure. */
    method VerifyIntegrity() returns (ok: bool)
      ensures ok == ChainValid(hash, blocks)
    {
      var i := 1;
      while i < |blocks|
        invariant 1 <= i
        invariant forall j :: 0 < j < i && j < |blocks| ==> LinkValid(hash, blocks, j)
      {
        var current := blocks[i];
        var prev := blocks[i - 1];
        if current.hash != CalculateHash(hash, current) {
          assert !LinkValid(hash, blocks, i);
          return false;
        }
        if current.previousHash != prev.hash {
          assert !LinkValid(hash, blocks, i);
          return false;
        }
        i := i + 1;
      }
      return true;
    }
  }
}
