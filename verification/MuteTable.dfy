/** The client's mute table: a chained hash table of strings under 64-bit djb2, as custom_hash_table.h has it. */
module MuteTable {
  import opened Sequences

  const TABLE_SIZE := 100
  const ULONG := 0x1_0000_0000_0000_0000

  /** The value of a char as an int, where char is a signed byte. */
  function CharValue(c: char): int {
    var byte := c as int % 256;
    if byte < 128 then byte else byte - 256
  }

  /** djb2: times 33 plus the character, wrapping at 64 bits. */
  function Djb2(s: string): (h: nat)
    ensures h < ULONG
  {
    if s == "" then 5381
    else (33 * Djb2(s[..|s| - 1]) + CharValue(s[|s| - 1])) % ULONG
  }

  function Bucket(key: string): (b: nat)
    ensures b < TABLE_SIZE
  {
    Djb2(key) % TABLE_SIZE
  }

  /** The hash of some short keys: the start value, one and two characters, and one whose char is negative. */
  lemma HashOfShortKeys()
    ensures Djb2("") == 5381 && Djb2("a") == 177670 && Djb2("ab") == 5863208 && Djb2([200 as char]) == 177517
    ensures Bucket("") == 81 && Bucket("a") == 70 && Bucket("ab") == 8
  {
    assert "a"[..0] == "" && "ab"[..1] == "a" && [200 as char][..0] == "";
  }

  lemma WrapsOnce(h: nat, c: int)
    requires h < ULONG
    ensures ((h * 32 % ULONG + h) % ULONG + c) % ULONG == (33 * h + c) % ULONG
  {
    var q := h * 32 / ULONG;
    var r := (h * 32 % ULONG + h) / ULONG;
    assert (h * 32 % ULONG + h) % ULONG + c == 33 * h + c - (q + r) * ULONG;
    Congruent(33 * h + c, q + r);
  }

  lemma Congruent(x: int, q: int)
    ensures (x - q * ULONG) % ULONG == x % ULONG
  {}

  method Hash(key: string) returns (b: nat)
    ensures b == Bucket(key)
  {
    var hashVal: nat := 5381;
    for i := 0 to |key|
      invariant hashVal == Djb2(key[..i])
    {
      assert key[..i + 1][..i] == key[..i];
      WrapsOnce(hashVal, CharValue(key[i]));
      var shifted := hashVal * 32 % ULONG;
      hashVal := ((shifted + hashVal) % ULONG + CharValue(key[i])) % ULONG;
    }
    assert key[..|key|] == key;
    b := hashVal % TABLE_SIZE;
  }

  class HashNode {
    const key: string
    var next: HashNode?

    constructor (key: string, next: HashNode?)
      ensures this.key == key && this.next == next
    {
      this.key, this.next := key, next;
    }
  }

  ghost function NodeAt(chain: seq<HashNode>, i: nat): HashNode? {
    if i < |chain| then chain[i] else null
  }

  /** `first` starts exactly this chain, and the chain ends. */
  ghost predicate Linked(first: HashNode?, chain: seq<HashNode>)
    reads chain
  {
    first == NodeAt(chain, 0) && forall i :: 0 <= i < |chain| ==> chain[i].next == NodeAt(chain, i + 1)
  }

  /** Every key of bucket b hashes there, and none occurs twice. */
  ghost predicate Placed(chain: seq<HashNode>, b: nat) {
    && (forall i :: 0 <= i < |chain| ==> Bucket(chain[i].key) == b)
    && (forall i, j :: 0 <= i < j < |chain| ==> chain[i].key != chain[j].key)
  }

  lemma PlacedDrop(chain: seq<HashNode>, b: nat, k: nat)
    requires Placed(chain, b) && k < |chain|
    ensures Placed(Drop(chain, k), b)
  {
    hide Bucket, Drop;
  }

  /** The chain without node k, when the node before k points past it. */
  lemma LinkedDrop(first: HashNode?, chain: seq<HashNode>, k: nat)
    requires k < |chain| && first == NodeAt(chain, if k == 0 then 1 else 0)
    requires forall i :: 0 <= i < |chain| && i != k - 1 ==> chain[i].next == NodeAt(chain, i + 1)
    requires k > 0 ==> chain[k - 1].next == NodeAt(chain, k + 1)
    ensures Linked(first, Drop(chain, k))
  {
    hide Drop;
    forall i | 0 <= i < |chain| - 1 ensures Drop(chain, k)[i].next == NodeAt(Drop(chain, k), i + 1) {
      assert Drop(chain, k)[i] == chain[if i < k then i else i + 1];
    }
  }

  ghost predicate InChain(chain: seq<HashNode>, key: string) {
    exists i :: 0 <= i < |chain| && chain[i].key == key
  }

  ghost predicate Sound(chains: seq<seq<HashNode>>, nodes: set<HashNode>) {
    && |chains| == TABLE_SIZE
    && (forall b, i :: 0 <= b < TABLE_SIZE && 0 <= i < |chains[b]| ==> chains[b][i] in nodes)
    && (forall b :: 0 <= b < TABLE_SIZE ==> Placed(chains[b], b))
  }

  lemma SoundUpdate(chains: seq<seq<HashNode>>, nodes: set<HashNode>, b: nat, chain: seq<HashNode>, more: set<HashNode>)
    requires Sound(chains, nodes) && b < TABLE_SIZE && Placed(chain, b) && nodes <= more
    requires forall i :: 0 <= i < |chain| ==> chain[i] in more
    ensures Sound(chains[b := chain], more)
  {
    hide Placed;
  }

  /** The keys are exactly those found in their buckets. */
  ghost predicate Holds(chains: seq<seq<HashNode>>, keys: set<string>) {
    |chains| == TABLE_SIZE && forall k :: k in keys <==> InChain(chains[Bucket(k)], k)
  }

  class Table {
    const table: array<HashNode?>
    ghost var chains: seq<seq<HashNode>>
    ghost var nodes: set<HashNode>
    ghost var keys: set<string>

    ghost predicate Valid()
      reads this, table, nodes
    {
      && table.Length == TABLE_SIZE
      && Sound(chains, nodes)
      && (forall b :: 0 <= b < TABLE_SIZE ==> Linked(table[b], chains[b]))
      && Holds(chains, keys)
    }

    constructor ()
      ensures Valid() && keys == {} && fresh(table) && nodes == {}
    {
      table := new HashNode?[TABLE_SIZE](_ => null);
      chains, nodes, keys := seq(TABLE_SIZE, _ => []), {}, {};
    }

    /** The walk that all three operations make down the key's bucket. */
    method Find(key: string) returns (b: nat, prev: HashNode?, n: HashNode?, ghost k: nat)
      requires Valid()
      ensures b == Bucket(key) && k <= |chains[b]| && n == NodeAt(chains[b], k)
      ensures prev == if k == 0 then null else chains[b][k - 1]
      ensures forall j :: 0 <= j < k ==> chains[b][j].key != key
      ensures n != null ==> n.key == key
      ensures key in keys <==> n != null
    {
      hide Bucket, Sound;
      b := Hash(key);
      LinkedOthers(b);
      FoundIfHeld(chains, keys, key);
      hide Holds, InChain, Linked;
      ghost var chain := chains[b];
      prev, n, k := null, table[b], 0;
      while n != null && n.key != key
        invariant k <= |chain| && n == NodeAt(chain, k)
        invariant prev == if k == 0 then null else chain[k - 1]
        invariant forall j :: 0 <= j < k ==> chain[j].key != key
        decreases |chain| - k
      {
        prev := n;
        n := n.next;
        k := k + 1;
      }
    }

    method Contains(key: string) returns (found: bool)
      requires Valid()
      ensures found == (key in keys)
    {
      var b, prev, n, k := Find(key);
      found := n != null;
    }

    method Insert(key: string)
      requires Valid()
      modifies this, table, nodes
      ensures Valid() && keys == old(keys) + {key} && fresh(nodes - old(nodes))
    {
      var b, prev, n, k := Find(key);
      if n == null {
        Prepend(key, b);
      }
    }

    method Prepend(key: string, b: nat)
      requires Valid() && key !in keys && b == Bucket(key)
      modifies this, table
      ensures Valid() && keys == old(keys) + {key} && fresh(nodes - old(nodes))
    {
      hide Bucket, Linked, Placed, InChain;
      ghost var was, held := chains, nodes;
      NotHeld(was, keys, key);
      KeysInChain(was[b], key);
      assert Placed(was[b], b);
      var node := PushFront(key, b);
      PlacedFront(was[b], b, node);
      KeysAfterInsert(was, keys, b, node);
      SoundUpdate(was, held, b, [node] + was[b], held + {node});
      hide Holds, Sound;
      chains := chains[b := [node] + was[b]];
      nodes := nodes + {node};
      keys := keys + {key};
      ValidFromParts(b);
    }

    /** A new node whose next is the bucket's old head becomes its head. */
    method PushFront(key: string, b: nat) returns (node: HashNode)
      requires Valid() && b < TABLE_SIZE
      modifies table
      ensures fresh(node) && node.key == key
      ensures OthersLinked(b) && Linked(table[b], [node] + chains[b])
    {
      LinkedOthers(b);
      hide Holds, Linked, Placed, Sound;
      node := new HashNode(key, table[b]);
      table[b] := node;
      LinkedFront(node, chains[b]);
    }

    static lemma PlacedFront(chain: seq<HashNode>, b: nat, node: HashNode)
      requires Placed(chain, b) && Bucket(node.key) == b
      requires forall i :: 0 <= i < |chain| ==> chain[i].key != node.key
      ensures Placed([node] + chain, b)
    {
      hide Bucket;
    }

    lemma LinkedFront(node: HashNode, chain: seq<HashNode>)
      requires node.next == NodeAt(chain, 0)
      requires forall i :: 0 <= i < |chain| ==> chain[i].next == NodeAt(chain, i + 1)
      ensures Linked(node, [node] + chain)
    {
      var c := [node] + chain;
      forall i | 0 <= i < |c| ensures c[i].next == NodeAt(c, i + 1) {
        assert i > 0 ==> c[i] == chain[i - 1];
      }
    }

    static lemma FoundIfHeld(chains: seq<seq<HashNode>>, keys: set<string>, key: string)
      requires Holds(chains, keys)
      ensures key in keys <==> exists i :: 0 <= i < |chains[Bucket(key)]| && chains[Bucket(key)][i].key == key
    {}

    static lemma NotHeld(chains: seq<seq<HashNode>>, keys: set<string>, key: string)
      requires Holds(chains, keys) && key !in keys
      ensures !InChain(chains[Bucket(key)], key)
    {}

    static lemma KeysInChain(chain: seq<HashNode>, key: string)
      requires !InChain(chain, key)
      ensures forall i :: 0 <= i < |chain| ==> chain[i].key != key
    {}

    static lemma InChainAfterInsert(chain: seq<HashNode>, node: HashNode, key: string)
      ensures InChain([node] + chain, key) <==> key == node.key || InChain(chain, key)
    {
      var c := [node] + chain;
      assert c[0] == node;
      if InChain(chain, key) {
        var i :| 0 <= i < |chain| && chain[i].key == key;
        assert c[i + 1].key == key;
      }
    }

    static lemma InChainAfterRemove(chain: seq<HashNode>, b: nat, k: nat, key: string)
      requires Placed(chain, b) && k < |chain|
      ensures InChain(Drop(chain, k), key) <==> key != chain[k].key && InChain(chain, key)
    {
      hide Drop, Bucket;
      if key != chain[k].key && InChain(chain, key) {
        var i :| 0 <= i < |chain| && chain[i].key == key;
        assert Drop(chain, k)[if i < k then i else i - 1].key == key;
      }
    }

    static lemma KeysAfterInsert(was: seq<seq<HashNode>>, keys: set<string>, b: nat, node: HashNode)
      requires Holds(was, keys) && b == Bucket(node.key)
      ensures Holds(was[b := [node] + was[b]], keys + {node.key})
    {
      hide Bucket, InChain;
      forall s ensures s in keys + {node.key} <==> InChain(was[b := [node] + was[b]][Bucket(s)], s) {
        InChainAfterInsert(was[b], node, s);
      }
    }

    static lemma KeysAfterRemove(was: seq<seq<HashNode>>, keys: set<string>, b: nat, k: nat)
      requires Holds(was, keys) && b < TABLE_SIZE && Placed(was[b], b) && k < |was[b]|
      ensures Holds(was[b := Drop(was[b], k)], keys - {was[b][k].key})
    {
      hide Bucket, InChain, Drop;
      assert Bucket(was[b][k].key) == b;
      forall s ensures s in keys - {was[b][k].key} <==> InChain(was[b := Drop(was[b], k)][Bucket(s)], s) {
        InChainAfterRemove(was[b], b, k, s);
      }
    }

    method RemoveKey(key: string)
      requires Valid()
      modifies this, table, nodes
      ensures Valid() && keys == old(keys) - {key} && nodes == old(nodes)
    {
      var b, prev, n, k := Find(key);
      if n != null {
        Unlink(key, b, prev, n, k);
      }
    }

    method Unlink(key: string, b: nat, prev: HashNode?, n: HashNode, ghost k: nat)
      requires Valid() && b < TABLE_SIZE && k < |chains[b]| && n == chains[b][k] && n.key == key
      requires prev == if k == 0 then null else chains[b][k - 1]
      modifies this, table, nodes
      ensures Valid() && keys == old(keys) - {key} && nodes == old(nodes)
    {
      hide Bucket, Drop, Linked, Placed;
      ghost var was := chains;
      assert Placed(was[b], b);
      Bypass(b, prev, n, k);
      PlacedDrop(was[b], b, k);
      KeysAfterRemove(was, keys, b, k);
      SoundUpdate(was, nodes, b, Drop(was[b], k), nodes);
      hide Holds, Sound;
      chains := chains[b := Drop(was[b], k)];
      keys := keys - {key};
      ValidFromParts(b);
    }

    /** The link that led to node k leads past it. */
    method Bypass(b: nat, prev: HashNode?, n: HashNode, ghost k: nat)
      requires Valid() && b < TABLE_SIZE && k < |chains[b]| && n == chains[b][k]
      requires prev == if k == 0 then null else chains[b][k - 1]
      modifies table, nodes
      ensures OthersLinked(b) && Linked(table[b], Drop(chains[b], k))
    {
      OnlyHere(b, k);
      LinkedOthers(b);
      hide Holds, Drop, Linked, Placed, Sound;
      if prev != null {
        prev.next := n.next;
      } else {
        table[b] := n.next;
      }
      LinkedDrop(table[b], chains[b], k);
    }

    /** Every link of every chain but bucket b's is as it should be. */
    ghost predicate OthersLinked(b: nat)
      reads this, table, nodes
    {
      && table.Length == |chains| == TABLE_SIZE
      && (forall c :: 0 <= c < TABLE_SIZE && c != b ==> table[c] == NodeAt(chains[c], 0))
      && (forall c, i :: 0 <= c < TABLE_SIZE && c != b && 0 <= i < |chains[c]|
                         ==> chains[c][i] in nodes && chains[c][i].next == NodeAt(chains[c], i + 1))
    }

    lemma LinkedOthers(b: nat)
      requires Valid() && b < TABLE_SIZE
      ensures OthersLinked(b)
      ensures table[b] == NodeAt(chains[b], 0)
      ensures forall i :: 0 <= i < |chains[b]| ==>
                            chains[b][i] in nodes && chains[b][i].next == NodeAt(chains[b], i + 1)
    {
      hide Placed, Holds;
      forall c, i | 0 <= c < TABLE_SIZE && 0 <= i < |chains[c]|
        ensures chains[c][i] in nodes && chains[c][i].next == NodeAt(chains[c], i + 1)
      {
        assert Linked(table[c], chains[c]);
      }
    }

    lemma ValidFromParts(b: nat)
      requires OthersLinked(b) && b < TABLE_SIZE && Linked(table[b], chains[b])
      requires Sound(chains, nodes) && Holds(chains, keys)
      ensures Valid()
    {
      hide Placed, Holds;
    }

    /** The node before place k of bucket b stands nowhere else. */
    lemma OnlyHere(b: nat, k: nat)
      requires Valid() && b < TABLE_SIZE && k < |chains[b]|
      ensures k > 0 ==> forall i :: 0 <= i < |chains[b]| && i != k - 1 ==> chains[b][i] != chains[b][k - 1]
      ensures k > 0 ==> forall c, i :: 0 <= c < TABLE_SIZE && c != b && 0 <= i < |chains[c]|
                                       ==> chains[c][i] != chains[b][k - 1]
    {
      if k > 0 {
        hide Linked, InChain;
        forall c, i | 0 <= c < TABLE_SIZE && c != b && 0 <= i < |chains[c]|
          ensures chains[c][i] != chains[b][k - 1]
        {
          assert Placed(chains[c], c) && Placed(chains[b], b);
        }
      }
    }
  }
}
