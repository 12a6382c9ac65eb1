/** The trie of `RadixSlotRouter`: heap nodes updated in place. */
module RadixTrie {
  import opened Options
  import opened TokenChunks
  import opened PrefixHistory
  import opened FlatTrie
  import opened TrieTheorems

  class TrieNode {
    var children: map<Chunk, TrieNode>
    var idSlot: Option<int>
    var lastUsed: real
    var tail: seq<Token>
    ghost const path: Path  // the chunks that lead to the node

    constructor (ghost path: Path)
      ensures children == map[] && idSlot == None && lastUsed == 0.0 && tail == [] && this.path == path
    {
      this.path := path;
      children, idSlot, lastUsed, tail := map[], None, 0.0, [];
    }

    ghost function View(): Entry
      reads this`idSlot, this`lastUsed, this`tail
    {
      Entry(idSlot, lastUsed, tail)
    }
  }

  class ChunkTrie {
    const root: TrieNode
    const ttl: real
    ghost var index: map<Path, TrieNode>  // every reachable node, by its path
    ghost var log: seq<Event>             // what has been inserted and invalidated
    ghost var clock: real                 // time of the latest insert

    /** The nodes form a tree: one node per path, linked exactly to its one-chunk extensions. */
    ghost predicate Shape()
      reads this`index, index.Values`children
    {
      && [] in index && index[[]] == root
      && (forall p :: p in index ==> index[p].path == p)
      && (forall p, c {:trigger c in index[p].children} :: p in index && c in index[p].children ==>
        p + [c] in index && index[p + [c]] == index[p].children[c])
      && (forall p {:trigger Parent(p)} :: p in index && p != [] ==>
        Parent(p) in index && p[|p| - 1] in index[Parent(p)].children)
    }

    lemma ChildLinked(p: Path, c: Chunk)
      requires Shape() && p + [c] in index
      ensures p in index && c in index[p].children
    {
      assert Parent(p + [c]) == p;
    }

    ghost function Contents(): Flat
      reads this`index, index.Values`idSlot, index.Values`lastUsed, index.Values`tail
    {
      map p | p in index :: index[p].View()
    }

    ghost predicate Valid()
      reads this, index.Values
    {
      Shape() && Logged(Contents(), log, clock, ttl)
    }

    constructor (ttl: real, now: real)
      ensures Valid() && fresh(index.Values)
      ensures this.ttl == ttl && log == [] && clock == now
    {
      var node := new TrieNode([]);
      root, this.ttl := node, ttl;
      index, log, clock := map[[] := node], [], now;
    }

    /** A new, empty child. */
    method AddChild(node: TrieNode, chunk: Chunk, ghost path: Path) returns (child: TrieNode)
      requires Shape() && path in index && index[path] == node && path + [chunk] !in index
      modifies node`children, this`index
      ensures Shape()
      ensures index == old(index)[path + [chunk] := child] && fresh(child) && child.View() == Entry(None, 0.0, [])
      ensures node.children == old(node.children)[chunk := child]
    {
      child := new TrieNode(path + [chunk]);
      ParentOfChild(path, chunk);
      node.children := node.children[chunk := child];
      index := index[path + [chunk] := child];
      forall p {:trigger Parent(p)} | p in index && p != []
        ensures Parent(p) in index && p[|p| - 1] in index[Parent(p)].children
      {
      }
    }

    /** The child for `chunk`, created when missing. */
    method Descend(node: TrieNode, chunk: Chunk, ghost path: Path) returns (child: TrieNode)
      requires Shape() && path in index && index[path] == node
      modifies node`children, this`index
      ensures Shape() && path + [chunk] in index && child == index[path + [chunk]]
      ensures fresh(index.Values - old(index.Values))
      ensures Contents() == Entered(old(Contents()), path + [chunk])
    {
      if path + [chunk] in index { ChildLinked(path, chunk); }
      if chunk !in node.children {
        child := AddChild(node, chunk, path);
      } else {
        child := node.children[chunk];
      }
    }

    /** Renew a node for `slot`. */
    method Stamp(node: TrieNode, slot: int, now: real, ghost path: Path)
      requires Shape() && path in index && index[path] == node
      modifies node`idSlot, node`lastUsed
      ensures Shape()
      ensures Contents() == old(Contents())[path := Entry(Some(slot), now, OldTail(old(Contents()), path))]
    {
      node.idSlot, node.lastUsed := Some(slot), now;
    }

    /** One turn of the insert loop: enter the child for `chunk`, creating it when missing, and renew it. */
    method Enter(node: TrieNode, chunk: Chunk, slot: int, now: real, ghost path: Path) returns (child: TrieNode)
      requires Shape() && path in index && index[path] == node
      modifies this`index, index.Values
      ensures Shape() && path + [chunk] in index && child == index[path + [chunk]]
      ensures fresh(index.Values - old(index.Values))
      ensures Contents() == old(Contents())[path + [chunk] :=
        Entry(Some(slot), now, OldTail(old(Contents()), path + [chunk]))]
    {
      child := Descend(node, chunk, path);
      Stamp(child, slot, now, path + [chunk]);
      EnteredStamp(old(Contents()), path + [chunk], slot, now);
    }

    method SetTail(node: TrieNode, tail: seq<Token>, slot: int, now: real, ghost path: Path)
      requires Shape() && path in index && index[path] == node
      modifies node`tail, node`idSlot, node`lastUsed
      ensures Shape()
      ensures Contents() == WithTail(old(Contents()), path, tail, slot, now)
    {
      if tail != [] {
        node.tail := tail;
        node.idSlot, node.lastUsed := Some(slot), now;
      }
    }

    method StampPath(full: Path, slot: int, now: real) returns (node: TrieNode)
      requires Shape()
      modifies this`index, index.Values
      ensures Shape() && full in index && index[full] == node
      ensures fresh(index.Values - old(index.Values))
      ensures Contents() == Stamped(old(Contents()), full, slot, now)
    {
      node := root;
      ghost var before, path := Contents(), [];
      StampedNone(before, slot, now);
      for i := 0 to |full|
        invariant path == full[..i]
        invariant Shape() && path in index && index[path] == node
        invariant fresh(index.Values - old(index.Values))
        invariant Contents() == Stamped(before, path, slot, now)
      {
        StampedNext(before, path, full[i], slot, now);
        node := Enter(node, full[i], slot, now, path);
        TakeNext(full, i);
        path := path + [full[i]];
      }
      TakeAll(full);
    }

    /** Unlink the children of a node whose keys are in `stale`, subtrees and all. */
    method DropChildren(node: TrieNode, ghost path: Path, stale: set<Chunk>)
      requires Shape() && path in index && index[path] == node
      modifies this`index, node`children
      ensures Shape()
      ensures forall p :: p in index ==> p in old(index) && index[p] == old(index)[p]
      ensures Contents() == Without(old(Contents()), path, stale)
    {
      ghost var before := Contents();
      node.children := node.children - stale;
      index := map p | p in index && !Under(path, stale, p) :: index[p];
      forall p, c {:trigger c in index[p].children} | p in index && c in index[p].children
        ensures p + [c] in index && index[p + [c]] == index[p].children[c]
      {
        UnderStep(path, stale, p, c);
      }
      forall p {:trigger Parent(p)} | p in index && p != []
        ensures Parent(p) in index && p[|p| - 1] in index[Parent(p)].children
      {
        UnderDown(path, stale, p);
      }
      assert forall p :: p in index ==> index[p].View() == before[p];
    }

    /**
     The walk of `_prune_expired` below one node. `bound` is at least the depth of the trie; it
     only serves to show that the recursion ends.
     */
    method PruneExpiredBelow(node: TrieNode, now: real, ghost path: Path, ghost bound: nat)
      requires Shape() && path in index && index[path] == node
      requires forall p :: p in index ==> |p| <= bound
      modifies this`index, index.Values`children
      ensures Shape()
      ensures forall p :: p in index ==> p in old(index) && index[p] == old(index)[p]
      ensures Contents() == Below(old(Contents()), path, now, ttl)
      decreases bound - |path|
    {
      ghost var before := Contents();
      var todo := node.children.Keys;
      ghost var keys := todo;
      var stale: set<Chunk> := {};
      ghost var done: set<Chunk> := {};
      PartlyNone(before, path, now, ttl);
      forall k | path + [k] in before ensures k in keys { ChildLinked(path, k); }
      while todo != {}
        invariant Shape() && path in index && index[path] == node
        invariant forall p :: p in index ==> p in old(index) && index[p] == old(index)[p]
        invariant todo !! done && todo + done == keys
        invariant stale == StaleKeys(before, path, done, now, ttl)
        invariant Contents() == Partly(before, path, done, now, ttl)
        decreases todo
      {
        var key :| key in todo;
        PartlyKeeps(before, path, done, now, ttl);
        assert path + [key] in Contents();
        ChildLinked(path, key);
        var child := node.children[key];
        assert child.View() == before[path + [key]];
        ghost var mid := Contents();
        PruneExpiredBelow(child, now, path + [key], bound);
        assert Contents() == Below(mid, path + [key], now, ttl);
        PartlyNext(before, path, done, key, now, ttl);
        MoveKey(todo, done, key);
        StaleNext(before, path, done, key, now, ttl);
        todo, done := todo - {key}, done + {key};
        PartlyKeeps(before, path, done, now, ttl);
        if child.idSlot.Some? && now - child.lastUsed > ttl {
          stale := stale + {key};
        }
        assert path in Contents();
      }
      DropChildren(node, path, stale);
      PartlyAll(before, path, keys, now, ttl);
    }

    method PruneExpired(now: real)
      requires Shape()
      modifies this`index, index.Values`children
      ensures Shape()
      ensures forall p :: p in index ==> p in old(index) && index[p] == old(index)[p]
      ensures Contents() == Expired(old(Contents()), now, ttl)
    {
      ghost var bound := DepthBound(index.Keys);
      PruneExpiredBelow(root, now, [], bound);
      BelowRoot(old(Contents()), now, ttl);
    }

    /** The end of an insert that has renewed its path. */
    method FinishInsert(node: TrieNode, ids: seq<Token>, tail: seq<Token>, slot: int, now: real, ghost full: Path,
      ghost before: Flat)
      requires Shape() && full in index && index[full] == node && full == FullChunks(ids) && tail == Tail(ids)
      requires Contents() == Stamped(before, full, slot, now)
      modifies node`tail, node`idSlot, node`lastUsed
      ensures Shape()
      ensures Contents() == Inserting(before, ids, slot, now)
    {
      SetTail(node, tail, slot, now, full);
    }

    /** The path and the tail of an insert. */
    method Place(ids: seq<Token>, slot: int, now: real)
      requires Shape()
      modifies this`index, index.Values
      ensures Shape() && fresh(index.Values - old(index.Values))
      ensures Contents() == Inserting(old(Contents()), ids, slot, now)
    {
      var full, tail := SplitTokens(ids);
      var node := StampPath(full, slot, now);
      FinishInsert(node, ids, tail, slot, now, full, old(Contents()));
    }

    /** The body of insert, on the nodes. */
    method InsertNodes(ids: seq<Token>, slot: int, now: real)
      requires Shape() && ids != []
      modifies this`index, index.Values
      ensures Shape() && fresh(index.Values - old(index.Values))
      ensures Contents() == Inserted'(old(Contents()), ids, slot, now, ttl)
    {
      Place(ids, slot, now);
      PruneExpired(now);
    }

    method InsertLogged(ids: seq<Token>, slot: int, now: real)
      requires Valid() && clock <= now && ids != []
      modifies this`index, index.Values
      ensures Shape() && fresh(index.Values - old(index.Values))
      ensures Logged(Contents(), log + [Event.Inserted(ids, slot, now)], now, ttl)
    {
      LogInserted(Contents(), log, clock, ttl, ids, slot, now);
      InsertNodes(ids, slot, now);
      ghost var logged := Logged(Contents(), log + [Event.Inserted(ids, slot, now)], now, ttl);
      assert logged;
    }

    method Insert(ids: seq<Token>, slot: int, now: real)
      requires Valid() && clock <= now
      modifies this, index.Values
      ensures Valid() && fresh(index.Values - old(index.Values))
      ensures ids == [] ==> log == old(log) && clock == old(clock)
      ensures ids != [] ==> log == old(log) + [Event.Inserted(ids, slot, now)] && clock == now
    {
      if ids == [] { return; }
      InsertLogged(ids, slot, now);
      LogInsert(ids, slot, now);
    }

    /** Writes down an insert that the nodes already show. */
    ghost method LogInsert(ids: seq<Token>, slot: int, now: real)
      requires Shape() && Logged(Contents(), log + [Event.Inserted(ids, slot, now)], now, ttl)
      modifies this`log, this`clock
      ensures Valid() && log == old(log) + [Event.Inserted(ids, slot, now)] && clock == now
    {
      log, clock := log + [Event.Inserted(ids, slot, now)], now;
    }

    method ClearNode(node: TrieNode, idSlot: int, ghost path: Path)
      requires Shape() && path in index && index[path] == node
      modifies node`idSlot
      ensures Shape()
      ensures Contents() == ClearedPartly(old(Contents()), path, {}, idSlot)
    {
      if node.idSlot == Some(idSlot) { node.idSlot := None; }
    }

    /** The loop over the children, with the node itself done. */
    method PruneSlotChildren(node: TrieNode, idSlot: int, ghost path: Path, ghost bound: nat, ghost before: Flat)
      requires Shape() && path in index && index[path] == node
      requires forall p :: p in index ==> |p| <= bound
      requires before.Keys == index.Keys && Contents() == ClearedPartly(before, path, {}, idSlot)
      modifies index.Values`idSlot
      ensures Shape()
      ensures Contents() == ClearedBelow(before, path, idSlot)
      decreases bound - |path|, 0
    {
      var todo := node.children.Keys;
      ghost var done: set<Chunk> := {};
      while todo != {}
        invariant Shape()
        invariant todo !! done && todo + done == node.children.Keys
        invariant Contents() == ClearedPartly(before, path, done, idSlot)
        decreases todo
      {
        var key :| key in todo;
        PruneSlotBelow(node.children[key], idSlot, path + [key], bound);
        ClearedNext(before, path, done, key, idSlot);
        MoveKey(todo, done, key);
        todo, done := todo - {key}, done + {key};
      }
      forall k | path + [k] in before ensures k in done { ChildLinked(path, k); }
      ClearedAll(before, path, done, idSlot);
    }

    /** The walk of `prune_slot` over one subtree. */
    method PruneSlotBelow(node: TrieNode, idSlot: int, ghost path: Path, ghost bound: nat)
      requires Shape() && path in index && index[path] == node
      requires forall p :: p in index ==> |p| <= bound
      modifies index.Values`idSlot
      ensures Shape()
      ensures Contents() == ClearedBelow(old(Contents()), path, idSlot)
      decreases bound - |path|, 1
    {
      ghost var before := Contents();
      ClearNode(node, idSlot, path);
      PruneSlotChildren(node, idSlot, path, bound, before);
    }

    /** The walk from the root. */
    method PruneSlotNodes(idSlot: int)
      requires Shape()
      modifies index.Values`idSlot
      ensures Shape()
      ensures Contents() == Pruned(old(Contents()), idSlot)
    {
      ghost var bound := DepthBound(index.Keys);
      PruneSlotBelow(root, idSlot, [], bound);
      ClearedRoot(old(Contents()), idSlot);
    }

    /** Writes down an invalidation that the nodes already show. */
    ghost method LogInvalidation(idSlot: int)
      requires Shape() && Logged(Contents(), log + [Invalidated(idSlot)], clock, ttl)
      modifies this`log
      ensures Valid() && log == old(log) + [Invalidated(idSlot)]
    {
      log := log + [Invalidated(idSlot)];
    }

    method PruneSlot(idSlot: int)
      requires Valid()
      modifies this`log, index.Values`idSlot
      ensures Valid()
      ensures log == old(log) + [Invalidated(idSlot)]
    {
      LogPruned(Contents(), log, idSlot, clock, ttl);
      PruneSlotNodes(idSlot);
      ghost var logged := Logged(Contents(), log + [Invalidated(idSlot)], clock, ttl);
      assert logged;
      LogInvalidation(idSlot);
    }

    /** The chunk loop of the match: the last node reached and the best fresh slot on the way. */
    method Walk(full: Path, now: real) returns (node: TrieNode, k: nat, slot: Option<int>, len: nat)
      requires Shape()
      ensures k == Depth(Contents(), full, 0) && node == index[full[..k]]
      ensures (slot, len) == Best(Contents(), full, k, now, ttl)
    {
      node, k, slot, len := root, 0, None, 0;
      assert full[..0] == [];
      while k < |full|
        invariant 0 <= k <= |full|
        invariant full[..k] in index && index[full[..k]] == node
        invariant Depth(Contents(), full, 0) == Depth(Contents(), full, k)
        invariant (slot, len) == Best(Contents(), full, k, now, ttl)
      {
        var chunk := full[k];
        TakeNext(full, k);
        if full[..k] + [chunk] in index { ChildLinked(full[..k], chunk); }
        if chunk !in node.children { break; }
        node := node.children[chunk];
        k := k + 1;
        if node.idSlot.Some? && now - node.lastUsed <= ttl {
          slot, len := node.idSlot, k * CHUNK_SIZE;
        }
      }
    }

    /** The zip loop: how many tokens the two tails share. */
    method CommonTail(a: seq<Token>, b: seq<Token>) returns (common: nat)
      ensures common == CommonLen(a, b)
    {
      common := 0;
      while common < |a| && common < |b| && a[common] == b[common]
        invariant common <= |a| && common <= |b| && a[..common] == b[..common]
      {
        common := common + 1;
      }
      CommonIs(a, b, common);
    }

    /** What the tail of the node reached adds to the answer of the walk. */
    method MatchTail(node: TrieNode, tail: seq<Token>, pos: nat, best: Option<int>, bestLen: nat, now: real)
      returns (slot: Option<int>, len: nat)
      ensures (slot, len) == TailStep(node.View(), tail, pos, (best, bestLen), now, ttl)
    {
      slot, len := best, bestLen;
      if node.tail != [] && tail != [] {
        var common := CommonTail(node.tail, tail);
        if common > 0 && node.idSlot.Some? && now - node.lastUsed <= ttl {
          slot, len := node.idSlot, pos + common;
        }
      } else if node.tail != [] && tail == [] && node.idSlot.Some? {
        slot, len := node.idSlot, pos + |node.tail|;
      }
    }

    method MatchLongestPrefix(ids: seq<Token>, now: real) returns (slot: Option<int>, len: nat)
      requires Shape()
      ensures (slot, len) == Match(Contents(), ids, now, ttl)
    {
      if ids == [] { return None, 0; }
      var full, tail := SplitTokens(ids);
      var node, k, best, bestLen := Walk(full, now);
      assert Contents()[full[..k]] == node.View();
      slot, len := MatchTail(node, tail, k * CHUNK_SIZE, best, bestLen, now);
    }
  }

  /** The number of equal leading tokens is the only place where the comparison can stop. */
  lemma CommonIs(a: seq<Token>, b: seq<Token>, n: nat)
    requires n <= |a| && n <= |b| && a[..n] == b[..n]
    requires n == |a| || n == |b| || a[n] != b[n]
    ensures CommonLen(a, b) == n
  {
    var k := CommonLen(a, b);
    assert forall j :: 0 <= j < n ==> a[..n][j] == b[..n][j];
    assert forall j :: 0 <= j < k ==> a[..k][j] == b[..k][j];
  }

  /** Some length bounds every path of a finite set. */
  lemma {:induction false} DepthBound(paths: set<Path>) returns (bound: nat)
    ensures forall p <- paths :: |p| <= bound
  {
    if paths == {} {
      bound := 0;
    } else {
      var p :| p in paths;
      bound := DepthBound(paths - {p});
      bound := if bound < |p| then |p| else bound;
    }
  }

  lemma BelowRoot(m: Flat, now: real, ttl: real)
    ensures Below(m, [], now, ttl) == Expired(m, now, ttl)
  {
  }

  // ---- Invalidation one child at a time ----

  ghost function ClearedBelow(m: Flat, path: Path, slot: int): Flat {
    map p | p in m :: if path <= p then Cleared(m[p], slot) else m[p]
  }

  ghost function ClearedPartly(m: Flat, path: Path, keys: set<Chunk>, slot: int): Flat {
    map p | p in m :: if p == path || Under(path, keys, p) then Cleared(m[p], slot) else m[p]
  }

  lemma ClearedRoot(m: Flat, slot: int)
    ensures ClearedBelow(m, [], slot) == Pruned(m, slot)
  {
  }

  lemma ClearedNext(m: Flat, path: Path, keys: set<Chunk>, k: Chunk, slot: int)
    requires k !in keys
    ensures ClearedBelow(ClearedPartly(m, path, keys, slot), path + [k], slot)
        == ClearedPartly(m, path, keys + {k}, slot)
  {
  }

  lemma ClearedAll(m: Flat, path: Path, keys: set<Chunk>, slot: int)
    requires PrefixClosed(m) && forall k :: path + [k] in m ==> k in keys
    ensures ClearedPartly(m, path, keys, slot) == ClearedBelow(m, path, slot)
  {
    forall p | p in m && path < p
      ensures p[|path|] in keys
    {
      ClosedDown(m, p, |path| + 1);
      assert p[..|path| + 1] == path + [p[|path|]];
    }
  }

  lemma ParentOfChild(p: Path, c: Chunk)
    ensures Parent(p + [c]) == p && (p + [c])[|p|] == c
  {
  }

  /** A missing child is created empty. */
  ghost function Entered(m: Flat, p: Path): Flat {
    if p in m then m else m[p := Entry(None, 0.0, [])]
  }

  lemma EnteredStamp(m: Flat, p: Path, slot: int, now: real)
    ensures var e := Entered(m, p);
            e[p := Entry(Some(slot), now, OldTail(e, p))] == m[p := Entry(Some(slot), now, OldTail(m, p))]
  {
  }

  lemma TakeNext<T>(s: seq<T>, i: nat)
    requires i < |s|
    ensures s[..i + 1] == s[..i] + [s[i]]
  {
  }

  lemma TakeAll<T>(s: seq<T>)
    ensures s[..|s|] == s
  {
  }

  // ---- Expiry one child at a time ----

  /** `p` lies at or below a child of `path` whose key is in `keys`. */
  ghost predicate Under(path: Path, keys: set<Chunk>, p: Path) {
    path < p && p[|path|] in keys
  }

  lemma UnderStep(path: Path, keys: set<Chunk>, p: Path, c: Chunk)
    ensures Under(path, keys, p + [c]) <==> if p == path then c in keys else Under(path, keys, p)
  {
    if path < p + [c] && p != path { assert path <= p; }
  }

  lemma UnderDown(path: Path, keys: set<Chunk>, p: Path)
    requires p != [] && !Under(path, keys, p)
    ensures !Under(path, keys, Parent(p))
    ensures Parent(p) == path ==> p[|p| - 1] !in keys
  {
  }

  ghost function Without(m: Flat, path: Path, keys: set<Chunk>): Flat {
    map p | p in m && !Under(path, keys, p) :: m[p]
  }

  /** Expiry restricted to the descendants of `path`. */
  ghost function Below(m: Flat, path: Path, now: real, ttl: real): Flat {
    map p | p in m && !(path <= p && Doomed(m, |path|, p, now, ttl)) :: m[p]
  }

  /** Expiry done strictly below the children `keys` of `path`. */
  ghost function Partly(m: Flat, path: Path, keys: set<Chunk>, now: real, ttl: real): Flat {
    map p | p in m && !(Under(path, keys, p) && Doomed(m, |path| + 1, p, now, ttl)) :: m[p]
  }

  lemma PartlyNone(m: Flat, path: Path, now: real, ttl: real)
    ensures Partly(m, path, {}, now, ttl) == m
  {
  }

  lemma PartlyAll(m: Flat, path: Path, keys: set<Chunk>, now: real, ttl: real)
    requires PrefixClosed(m) && forall k :: path + [k] in m ==> k in keys
    ensures Without(Partly(m, path, keys, now, ttl), path, StaleKeys(m, path, keys, now, ttl))
        == Below(m, path, now, ttl)
  {
    var stale := StaleKeys(m, path, keys, now, ttl);
    forall p | p in m && path < p
      ensures Doomed(m, |path|, p, now, ttl) <==> Under(path, stale, p) || Doomed(m, |path| + 1, p, now, ttl)
      ensures p[|path|] in keys
    {
      ClosedDown(m, p, |path| + 1);
      assert p[..|path| + 1] == path + [p[|path|]];
    }
  }

  ghost function StaleKeys(m: Flat, path: Path, keys: set<Chunk>, now: real, ttl: real): set<Chunk> {
    set k | k in keys && path + [k] in m && m[path + [k]].Stale(now, ttl)
  }

  lemma StaleNext(m: Flat, path: Path, keys: set<Chunk>, k: Chunk, now: real, ttl: real)
    requires path + [k] in m
    ensures m[path + [k]].Stale(now, ttl) ==>
      StaleKeys(m, path, keys + {k}, now, ttl) == StaleKeys(m, path, keys, now, ttl) + {k}
    ensures !m[path + [k]].Stale(now, ttl) ==>
      StaleKeys(m, path, keys + {k}, now, ttl) == StaleKeys(m, path, keys, now, ttl)
  {
  }

  lemma MoveKey<T>(todo: set<T>, done: set<T>, k: T)
    requires k in todo && todo !! done
    ensures todo - {k} !! done + {k} && (todo - {k}) + (done + {k}) == todo + done
  {
  }

  lemma PartlyKeeps(m: Flat, path: Path, keys: set<Chunk>, now: real, ttl: real)
    requires path in m
    ensures path in Partly(m, path, keys, now, ttl)
    ensures forall k :: path + [k] in m ==> path + [k] in Partly(m, path, keys, now, ttl)
  {
  }

  lemma PartlyNext(m: Flat, path: Path, keys: set<Chunk>, k: Chunk, now: real, ttl: real)
    requires k !in keys
    ensures Below(Partly(m, path, keys, now, ttl), path + [k], now, ttl) == Partly(m, path, keys + {k}, now, ttl)
  {
    var part := Partly(m, path, keys, now, ttl);
    forall p | p in m && path + [k] <= p
      ensures Doomed(part, |path| + 1, p, now, ttl) == Doomed(m, |path| + 1, p, now, ttl)
    {
      forall i | |path| + 1 < i <= |p|
        ensures !Under(path, keys, p[..i])
      {
        assert p[..i][|path|] == k;
      }
    }
  }

  lemma StampedNone(m: Flat, slot: int, now: real)
    requires [] in m
    ensures Stamped(m, [], slot, now) == m
  {
    forall p: Path ensures p in Prefixes([]) <==> p == [] { PrefixesAre([], p); }
  }

  /** One more chunk stamped. */
  lemma StampedNext(m: Flat, p: Path, chunk: Chunk, slot: int, now: real)
    ensures Stamped(m, p + [chunk], slot, now) == Stamped(m, p, slot, now)[p + [chunk] :=
      Entry(Some(slot), now, OldTail(Stamped(m, p, slot, now), p + [chunk]))]
  {
    forall q: Path
      ensures q in Prefixes(p + [chunk]) <==> q in Prefixes(p) || q == p + [chunk]
    {
      PrefixesAre(p + [chunk], q);
      PrefixesAre(p, q);
    }
  }
}
