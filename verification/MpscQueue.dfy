/** The lock-free multi-producer single-consumer queue with a recycled stub.

    Each atomic access of the source is one step here. `Producers` runs any number of producer
    steps and stands between every two accesses of the consumer, so the consumer's methods are
    proved for every interleaving with any number of producers (sequentially consistent steps).
    Freed nodes may be allocated again under the same address. */
module Mpsc {
  import opened Bytes

  type Node = nat
  const STUB: Node := 0

  /** The values of a chain of nodes; the stub carries none. */
  ghost function Values<T>(chain: seq<Node>, value: map<Node, T>): seq<T> {
    if chain == [] then []
    else (if chain[0] != STUB && chain[0] in value then [value[chain[0]]] else []) + Values(chain[1..], value)
  }

  lemma {:induction false} ValuesAppend<T>(chain: seq<Node>, n: Node, value: map<Node, T>)
    ensures Values(chain + [n], value) == Values(chain, value) + Values([n], value)
  {
    if chain == [] {
      assert chain + [n] == [n];
    } else {
      assert (chain + [n])[1..] == chain[1..] + [n] && (chain + [n])[0] == chain[0];
      ValuesAppend(chain[1..], n, value);
      var first := if chain[0] != STUB && chain[0] in value then [value[chain[0]]] else [];
      Assoc(first, Values(chain[1..], value), Values([n], value));
    }
  }

  lemma Assoc<T>(a: seq<T>, b: seq<T>, c: seq<T>)
    ensures a + (b + c) == a + b + c
  {
  }

  lemma {:induction false} ValuesFrame<T>(chain: seq<Node>, v: map<Node, T>, w: map<Node, T>)
    requires forall n :: n in chain && n != STUB ==> (n in v <==> n in w) && (n in v ==> v[n] == w[n])
    ensures Values(chain, v) == Values(chain, w)
  {
    if chain != [] {
      assert forall n :: n in chain[1..] ==> n in chain;
      ValuesFrame(chain[1..], v, w);
    }
  }

  /** A value no smaller than any used address, so there is always one to allocate. */
  lemma {:induction false} FreeAddressExists(used: set<nat>) returns (n: nat)
    ensures n != STUB && forall k :: k in used ==> k < n
  {
    if used == {} {
      n := 1;
    } else {
      var k :| k in used;
      var m := FreeAddressExists(used - {k});
      n := if k < m then m else k + 1;
      assert forall j :: j in used ==> j == k || j in used - {k};
    }
  }

  ghost predicate Distinct(chain: seq<Node>) {
    forall i, j :: 0 <= i < j < |chain| ==> chain[i] != chain[j]
  }

  /** The link into `chain[i]` is written, unless the thread that pushed `chain[i]` still owes
      it; then the predecessor's `next` is null and that thread knows the predecessor. */
  ghost predicate LinkOk(chain: seq<Node>, next: map<Node, Option<Node>>, owed: map<Node, Node>, i: nat)
    requires 0 < i < |chain|
  {
    var p, n := chain[i - 1], chain[i];
    && p in next
    && if n in owed then owed[n] == p && next[p] == None else next[p] == Some(n)
  }

  ghost predicate ChainOk(chain: seq<Node>, next: map<Node, Option<Node>>, owed: map<Node, Node>) {
    && chain != [] && Distinct(chain)
    && (forall n :: n in chain ==> n in next)
    && (forall i :: 0 < i < |chain| ==> LinkOk(chain, next, owed, i))
    && next[chain[|chain| - 1]] == None
    && (forall n :: n in owed ==> n in chain && n != chain[0])
  }

  /** The allocated nodes are exactly the queued ones and the stub; all but the stub carry a value. */
  ghost predicate NodesOk<T>(chain: seq<Node>, next: map<Node, Option<Node>>, value: map<Node, T>) {
    && (forall n :: n in next <==> n in chain || n == STUB)
    && (forall n :: n in value <==> n in chain && n != STUB)
  }

  /** An exchange appends a node and leaves one link owed. */
  lemma ExchangeKeeps(chain: seq<Node>, next: map<Node, Option<Node>>, owed: map<Node, Node>, n: Node)
    requires ChainOk(chain, next, owed) && n !in chain
    ensures ChainOk(chain + [n], next[n := None], owed[n := chain[|chain| - 1]])
  {
    var chain', next', owed' := chain + [n], next[n := None], owed[n := chain[|chain| - 1]];
    forall i | 0 < i < |chain'|
      ensures LinkOk(chain', next', owed', i)
    {
      if i < |chain| {
        assert LinkOk(chain, next, owed, i);
      }
    }
  }

  /** The store that pays an owed link. */
  lemma LinkKeeps(chain: seq<Node>, next: map<Node, Option<Node>>, owed: map<Node, Node>, n: Node)
    requires ChainOk(chain, next, owed) && n in owed
    ensures owed[n] in chain && owed[n] in next
    ensures ChainOk(chain, next[owed[n] := Some(n)], owed - {n})
  {
    var k :| 0 <= k < |chain| && chain[k] == n;
    assert LinkOk(chain, next, owed, k);
    var next', owed' := next[owed[n] := Some(n)], owed - {n};
    forall i | 0 < i < |chain|
      ensures LinkOk(chain, next', owed', i)
    {
      assert LinkOk(chain, next, owed, i);
    }
  }

  /** Dropping a head whose outgoing link is written owes nothing to anybody. */
  lemma PopKeeps(chain: seq<Node>, next: map<Node, Option<Node>>, owed: map<Node, Node>)
    requires ChainOk(chain, next, owed) && next[chain[0]].Some?
    ensures |chain| > 1 && next[chain[0]] == Some(chain[1])
    ensures forall n :: n in owed ==> owed[n] != chain[0]
    ensures ChainOk(chain[1..], next, owed) && ChainOk(chain[1..], next - {chain[0]}, owed)
  {
    assert LinkOk(chain, next, owed, 1);
    var rest := chain[1..];
    forall n | n in owed
      ensures owed[n] != chain[0] && n in rest && n != rest[0]
    {
      var k :| 0 <= k < |chain| && chain[k] == n;
      assert LinkOk(chain, next, owed, k);
      assert rest[k - 1] == n;
    }
    forall i | 0 < i < |rest|
      ensures LinkOk(rest, next, owed, i) && LinkOk(rest, next - {chain[0]}, owed, i)
    {
      assert LinkOk(chain, next, owed, i + 1);
    }
  }

  /** A pushed value appears at the end of the contents, with its node. */
  lemma PushedValue<T>(chain: seq<Node>, next: map<Node, Option<Node>>, value: map<Node, T>, n: Node, v: T)
    requires NodesOk(chain, next, value) && n !in next && n != STUB
    ensures NodesOk(chain + [n], next[n := None], value[n := v])
    ensures Values(chain + [n], value[n := v]) == Values(chain, value) + [v]
  {
    ValuesAppend(chain, n, value[n := v]);
    ValuesFrame(chain, value, value[n := v]);
    assert Values([n], value[n := v]) == [v] + Values([], value[n := v]);
  }

  /** Popping a node removes the first value, and the node with it. */
  lemma PoppedValue<T>(chain: seq<Node>, next: map<Node, Option<Node>>, value: map<Node, T>)
    requires NodesOk(chain, next, value) && Distinct(chain) && |chain| > 1 && chain[0] != STUB
    ensures NodesOk(chain[1..], next - {chain[0]}, value - {chain[0]})
    ensures Values(chain, value) == [value[chain[0]]] + Values(chain[1..], value - {chain[0]})
  {
    var rest := chain[1..];
    assert chain[0] !in rest && forall n :: n in chain <==> n == chain[0] || n in rest;
    ValuesFrame(rest, value, value - {chain[0]});
  }

  /** The queue is its chain: allocated nodes are exactly the queued ones and the stub, the stub is
      queued at most once, and what was pushed is what was popped plus the contents. */
  ghost predicate QueueOk<T>(chain: seq<Node>, next: map<Node, Option<Node>>, owed: map<Node, Node>,
                             value: map<Node, T>, pushed: seq<T>, popped: seq<T>) {
    && ChainOk(chain, next, owed)
    && NodesOk(chain, next, value)
    && pushed == popped + Values(chain, value)
  }

  lemma PushOk<T>(chain: seq<Node>, next: map<Node, Option<Node>>, owed: map<Node, Node>,
                  value: map<Node, T>, pushed: seq<T>, popped: seq<T>, n: Node, v: T)
    requires QueueOk(chain, next, owed, value, pushed, popped) && n !in next && n != STUB
    ensures QueueOk(chain + [n], next[n := None], owed[n := chain[|chain| - 1]], value[n := v],
                    pushed + [v], popped)
  {
    ExchangeKeeps(chain, next, owed, n);
    PushedValue(chain, next, value, n, v);
  }

  lemma PopOk<T>(chain: seq<Node>, next: map<Node, Option<Node>>, owed: map<Node, Node>,
                 value: map<Node, T>, pushed: seq<T>, popped: seq<T>)
    requires QueueOk(chain, next, owed, value, pushed, popped)
    requires next[chain[0]].Some? && chain[0] != STUB
    ensures |chain| > 1 && next[chain[0]] == Some(chain[1]) && chain[0] in value
    ensures QueueOk(chain[1..], next - {chain[0]}, owed, value - {chain[0]}, pushed, popped + [value[chain[0]]])
    ensures Values(chain, value) == [value[chain[0]]] + Values(chain[1..], value - {chain[0]})
    ensures forall n :: n in owed ==> owed[n] != chain[0]
  {
    PopKeeps(chain, next, owed);
    PoppedValue(chain, next, value);
    MoveOne(popped, value[chain[0]], Values(chain[1..], value - {chain[0]}));
  }

  lemma MoveOne<T>(popped: seq<T>, out: T, rest: seq<T>)
    ensures popped + ([out] + rest) == popped + [out] + rest
  {
  }

  lemma SkipOk<T>(chain: seq<Node>, next: map<Node, Option<Node>>, owed: map<Node, Node>,
                  value: map<Node, T>, pushed: seq<T>, popped: seq<T>)
    requires QueueOk(chain, next, owed, value, pushed, popped)
    requires next[chain[0]].Some? && chain[0] == STUB
    ensures |chain| > 1 && next[chain[0]] == Some(chain[1]) && STUB !in chain[1..]
    ensures QueueOk(chain[1..], next, owed, value, pushed, popped)
    ensures Values(chain, value) == Values(chain[1..], value)
  {
    PopKeeps(chain, next, owed);
    assert forall n :: n in chain <==> n == STUB || n in chain[1..];
  }

  class MpscQueue<T(0)> {
    var next: map<Node, Option<Node>>   // the allocated nodes, stub included
    var value: map<Node, T>
    var consumeEnd: Node
    var produceEnd: Node
    var owed: map<Node, Node>           // per pushed node, the predecessor its thread still has to link
    var pushesLeft: nat                 // how many pushes the producers still start

    ghost var chain: seq<Node>          // every queued node in exchange order
    ghost var pushed: seq<T>
    ghost var popped: seq<T>

    ghost function Contents(): seq<T>
      reads this
    {
      Values(chain, value)
    }

    /** The consumer's end is the head of the chain, the producers' end its last node. */
    ghost predicate Valid()
      reads this
    {
      && QueueOk(chain, next, owed, value, pushed, popped)
      && chain[0] == consumeEnd && chain[|chain| - 1] == produceEnd
    }

    constructor ()
      ensures Valid() && pushed == [] && popped == [] && owed == map[]
    {
      next, value := map[STUB := None], map[];
      consumeEnd, produceEnd, owed := STUB, STUB, map[];
      pushesLeft := *;
      chain, pushed, popped := [STUB], [], [];
      new;
      assert Values([STUB], value) == [] + Values([STUB][1..], value);
    }

    /** What producers may change: the chain only grows at its end, links only appear. */
    twostate predicate ProducersOnly()
      reads this
    {
      && consumeEnd == old(consumeEnd) && popped == old(popped) && old(pushed) <= pushed
      && old(chain) <= chain && |pushed| - |old(pushed)| == |chain| - |old(chain)|
      && (forall n :: n in old(chain) && n in owed ==> n in old(owed))
      && (STUB in chain <==> STUB in old(chain))
      && (STUB in owed <==> STUB in old(owed))
      && (STUB !in chain && STUB in old(next) ==> STUB in next && next[STUB] == old(next)[STUB])
      && pushesLeft + |pushed| <= old(pushesLeft) + |old(pushed)|
      && (Quiet() ==> owed == map[])
    }

    /** No push in progress, and none begins. */
    twostate predicate Quiet()
      reads this`pushed
    {
      old(owed) == map[] && |pushed| == |old(pushed)|
    }

    /** Any address that is not in use, freed ones included. */
    method Allocate() returns (n: Node)
      ensures n !in next && n != STUB
    {
      ghost var m := FreeAddressExists(next.Keys);
      assert m !in next.Keys;
      n :| n !in next.Keys && n != STUB;
    }

    /** `PushNode`, first half: exchange produce_end for a freshly allocated node. */
    method Exchange(v: T)
      requires Valid() && pushesLeft > 0
      modifies this
      ensures Valid() && ProducersOnly()
      ensures pushed == old(pushed) + [v]
    {
      var n := Allocate();
      ExchangeNode(n, v);
    }

    method ExchangeNode(n: Node, v: T)
      requires Valid() && pushesLeft > 0 && n !in next && n != STUB
      modifies this`next, this`value, this`owed, this`produceEnd, this`pushesLeft
      modifies this`chain, this`pushed
      ensures Valid() && chain == old(chain) + [n] && pushed == old(pushed) + [v]
      ensures owed == old(owed)[n := old(produceEnd)] && next == old(next)[n := None]
      ensures pushesLeft == old(pushesLeft) - 1
    {
      PushOk(chain, next, owed, value, pushed, popped, n, v);
      next := next[n := None];
      value := value[n := v];
      owed := owed[n := produceEnd];
      produceEnd := n;
      pushesLeft := pushesLeft - 1;
      chain := chain + [n];
      pushed := pushed + [v];
    }

    /** `PushNode`, second half: the store into the predecessor, which is never a freed node. */
    method Link(n: Node)
      requires Valid() && n in owed
      modifies this`next, this`owed
      ensures Valid()
      ensures old(owed)[n] in old(next) && old(owed)[n] in chain
      ensures next == old(next)[old(owed)[n] := Some(n)] && owed == old(owed) - {n}
    {
      LinkKeeps(chain, next, owed, n);
      next := next[owed[n] := Some(n)];
      owed := owed - {n};
    }

    /** Any number of steps of any number of producers. */
    method Producers()
      requires Valid()
      modifies this
      ensures Valid() && ProducersOnly()
    {
      var steps: nat := *;
      while steps > 0
        invariant Valid() && ProducersOnly()
        decreases steps
      {
        steps := steps - 1;
        ProducerStep();
      }
    }

    method ProducerStep()
      requires Valid()
      modifies this
      ensures Valid() && ProducersOnly()
    {
      var start: bool := *;
      if start {
        if pushesLeft > 0 {
          var v: T := *;
          Exchange(v);
        }
      } else if owed.Keys - {STUB} != {} {
        var n: Node :| n in owed.Keys - {STUB};
        Link(n);
      }
    }

    // ---------------------------------------------------------------- the consumer

    /** The link out of the head is written. */
    ghost predicate HeadLinked()
      reads this
    {
      |chain| > 1 && chain[1] !in owed
    }

    /** What a load of the head's `next` tells. */
    lemma HeadNext()
      requires Valid()
      ensures consumeEnd in next
      ensures next[consumeEnd].Some? <==> HeadLinked()
      ensures HeadLinked() ==> next[consumeEnd] == Some(chain[1])
      ensures |chain| == 1 <==> consumeEnd == produceEnd
    {
      if |chain| > 1 {
        assert LinkOk(chain, next, owed, 1);
      }
    }

    /** Moves past a stub at the head, which leaves the queue. */
    method SkipStub(node: Node)
      requires Valid() && consumeEnd == STUB && HeadLinked() && node == chain[1]
      modifies this`consumeEnd, this`chain
      ensures Valid() && consumeEnd == node != STUB && chain == old(chain)[1..] && STUB !in chain
      ensures Contents() == old(Contents())
    {
      HeadNext();
      SkipOk(chain, next, owed, value, pushed, popped);
      consumeEnd := node;
      chain := chain[1..];
    }

    /** Takes the head's value and frees the head: no thread owes it a write any more. */
    method Pop(nx: Node) returns (out: T)
      requires Valid() && consumeEnd != STUB && HeadLinked() && nx == chain[1]
      modifies this`consumeEnd, this`chain, this`next, this`value, this`popped
      ensures Valid() && popped == old(popped) + [out] && old(Contents()) == [out] + Contents()
      ensures old(consumeEnd) !in next && forall n :: n in owed ==> owed[n] != old(consumeEnd)
    {
      HeadNext();
      PopOk(chain, next, owed, value, pushed, popped);
      out := Detach(nx);
    }

    method Detach(nx: Node) returns (out: T)
      requires chain != [] && consumeEnd in value
      modifies this`consumeEnd, this`chain, this`next, this`value, this`popped
      ensures consumeEnd == nx && chain == old(chain)[1..] && out == old(value)[old(consumeEnd)]
      ensures next == old(next) - {old(consumeEnd)} && value == old(value) - {old(consumeEnd)}
      ensures popped == old(popped) + [out]
    {
      var node := consumeEnd;
      consumeEnd := nx;
      out := value[node];
      next := next - {node};
      value := value - {node};
      chain := chain[1..];
      popped := popped + [out];
    }

    /** Pushes the stub behind the last node: the exchange half, done by the consumer. */
    method ExchangeStub()
      requires Valid() && STUB !in chain && STUB in next && next[STUB] == None
      modifies this`produceEnd, this`owed, this`chain
      ensures Valid() && STUB in owed && chain == old(chain) + [STUB]
      ensures owed == old(owed)[STUB := old(produceEnd)]
      ensures Contents() == old(Contents())
    {
      ExchangeKeeps(chain, next, owed, STUB);
      assert next[STUB := None] == next;
      ValuesAppend(chain, STUB, value);
      assert Values([STUB], value) == [] + Values([STUB][1..], value);
      owed := owed[STUB := produceEnd];
      produceEnd := STUB;
      chain := chain + [STUB];
    }

    /** The stub joins the chain behind the last node; both halves of its push, with producers
        running at every point in between. */
    method RecycleStub()
      requires Valid() && consumeEnd != STUB && STUB !in chain
      modifies this
      ensures Valid() && consumeEnd == old(consumeEnd) && popped == old(popped) && old(pushed) <= pushed
      ensures |chain| > 1 && (Quiet() ==> owed == map[])
      ensures pushesLeft + |pushed| <= old(pushesLeft) + |old(pushed)|
    {
      ReadyStub();
      PushStub();
    }

    method PushStub()
      requires Valid() && STUB !in chain && STUB in next && next[STUB] == None
      modifies this
      ensures Valid() && consumeEnd == old(consumeEnd) && popped == old(popped) && old(pushed) <= pushed
      ensures |chain| > 1 && (Quiet() ==> owed == map[])
      ensures pushesLeft + |pushed| <= old(pushesLeft) + |old(pushed)|
    {
      ExchangeStub();
      LinkStub();
    }

    /** The other half of the push, some producer steps later. */
    method LinkStub()
      requires Valid() && STUB in owed && |chain| > 1
      modifies this
      ensures Valid() && consumeEnd == old(consumeEnd) && popped == old(popped) && old(pushed) <= pushed
      ensures |chain| > 1
      ensures (forall n :: n in old(owed) ==> n == STUB) && |pushed| == |old(pushed)| ==> owed == map[]
      ensures pushesLeft + |pushed| <= old(pushesLeft) + |old(pushed)|
    {
      Producers();
      Link(STUB);
    }

    method ReadyStub()
      requires Valid() && STUB !in chain
      modifies this
      ensures Valid() && STUB !in chain && STUB in next && next[STUB] == None
      ensures consumeEnd == old(consumeEnd) && popped == old(popped) && old(pushed) <= pushed
      ensures Quiet() ==> owed == map[]
      ensures pushesLeft + |pushed| <= old(pushesLeft) + |old(pushed)|
    {
      Producers();
      ResetStub();
      Producers();
    }

    /** The single queued node: recycle the stub behind it, then pop it if its link shows. */
    method PopLast() returns (r: Option<T>)
      requires Valid() && consumeEnd != STUB && STUB !in chain
      modifies this
      ensures Valid() && old(pushed) <= pushed
      ensures popped == old(popped) + if r.Some? then [r.value] else []
      ensures Quiet() ==> r.Some? && owed == map[]
      ensures pushesLeft + |pushed| <= old(pushesLeft) + |old(pushed)|
    {
      RecycleStub();
      Producers();
      r := PopIfLinked();
    }

    /** Load the head's `next`; if it is there, pop. Failing means the link was still owed. */
    method PopIfLinked() returns (r: Option<T>)
      requires Valid() && consumeEnd != STUB
      modifies this
      ensures Valid() && old(pushed) <= pushed
      ensures popped == old(popped) + if r.Some? then [r.value] else []
      ensures r.Some? <==> old(HeadLinked())
      ensures Quiet() ==> owed == map[]
      ensures pushesLeft + |pushed| <= old(pushesLeft) + |old(pushed)|
    {
      var nx := LoadNext();
      if nx.Some? {
        var out := Pop(nx.value);
        return Some(out);
      }
      return None;
    }

    method ResetStub()
      requires Valid() && STUB !in chain
      modifies this`next
      ensures Valid() && next == old(next)[STUB := None]
    {
      next := next[STUB := None];
      forall i | 0 < i < |chain|
        ensures LinkOk(chain, next, owed, i)
      {
        assert LinkOk(chain, old(next), owed, i);
      }
    }

    /** The rest of `TryPop` once the head is a value node and its `next` was loaded as `nx`. */
    method PopLoaded(nx: Option<Node>) returns (r: Option<T>)
      requires Valid() && consumeEnd != STUB
      requires nx.Some? ==> HeadLinked() && nx.value == chain[1]
      modifies this
      ensures Valid() && old(pushed) <= pushed
      ensures popped == old(popped) + if r.Some? then [r.value] else []
      ensures nx.Some? ==> r.Some?
      ensures Quiet() ==> owed == map[] && (|old(chain)| == 1 ==> r.Some?)
      ensures pushesLeft + |pushed| <= old(pushesLeft) + |old(pushed)|
    {
      if nx.Some? {
        var out := Pop(nx.value);
        return Some(out);
      }
      Producers();
      HeadNext();
      if consumeEnd != produceEnd {
        return None;
      }
      assert STUB !in chain;
      r := PopLast();
    }

    /** A thread still owes the link into the first value, or the one out of it. */
    ghost predicate FirstOwed()
      reads this
    {
      var first := if consumeEnd == STUB then 1 else 0;
      exists i :: 0 < i <= first + 1 && i < |chain| && chain[i] in owed
    }

    /** The first value is the last node. */
    ghost predicate FirstIsLast()
      reads this
    {
      |chain| == if consumeEnd == STUB then 2 else 1
    }

    /** Pops the oldest value; what it returns continues the exchange order exactly. It fails only
        if the queue was empty, a link next to its first value was owed, or that value was the last
        node and a push began behind it. */
    method TryPop() returns (r: Option<T>)
      requires Valid()
      modifies this
      ensures Valid() && old(pushed) <= pushed
      ensures popped == old(popped) + if r.Some? then [r.value] else []
      ensures r.None? ==>
                || old(Contents() == [] || FirstOwed())
                || (old(FirstIsLast()) && |pushed| > |old(pushed)|)
      ensures Quiet() ==> owed == map[]
      ensures pushesLeft + |pushed| <= old(pushesLeft) + |old(pushed)|
    {
      var node := consumeEnd;
      assert node == STUB && |chain| == 1 ==> Contents() == [] + Values(chain[1..], value);
      var nx := LoadNext();
      if node == STUB {
        if nx.None? {
          return None;
        }
        r := PopAfterStub(nx.value);
      } else {
        r := PopLoaded(nx);
      }
    }

    method PopAfterStub(node: Node) returns (r: Option<T>)
      requires Valid() && consumeEnd == STUB && HeadLinked() && node == chain[1]
      modifies this
      ensures Valid() && old(pushed) <= pushed
      ensures popped == old(popped) + if r.Some? then [r.value] else []
      ensures old(|chain| > 2 && chain[2] !in owed) ==> r.Some?
      ensures Quiet() ==> owed == map[] && r.Some?
      ensures pushesLeft + |pushed| <= old(pushesLeft) + |old(pushed)|
    {
      var nx := SkipAndLoad(node);
      r := PopLoaded(nx);
    }

    /** Moves past the stub and loads the new head's `next`. */
    method SkipAndLoad(node: Node) returns (nx: Option<Node>)
      requires Valid() && consumeEnd == STUB && HeadLinked() && node == chain[1]
      modifies this
      ensures Valid() && consumeEnd == node != STUB
      ensures nx.Some? ==> HeadLinked() && nx.value == chain[1]
      ensures old(pushed) <= pushed && popped == old(popped)
      ensures old(|chain| > 2 && chain[2] !in owed) ==> nx.Some?
      ensures Quiet() ==> owed == map[] && (nx.Some? || |chain| == 1)
      ensures pushesLeft + |pushed| <= old(pushesLeft) + |old(pushed)|
    {
      Skip(node);
      nx := LoadNext();
    }

    method Skip(node: Node)
      requires Valid() && consumeEnd == STUB && HeadLinked() && node == chain[1]
      modifies this
      ensures Valid() && consumeEnd == node != STUB
      ensures old(pushed) <= pushed && popped == old(popped)
      ensures old(|chain| > 2 && chain[2] !in owed) ==> HeadLinked()
      ensures Quiet() ==> owed == map[]
      ensures pushesLeft + |pushed| <= old(pushesLeft) + |old(pushed)|
    {
      SkipStub(node);
      assert old(|chain| > 2 && chain[2] !in owed) ==> HeadLinked();
      Producers();
    }

    /** Loads the head's `next`; what was loaded stays true while producers go on. */
    method LoadNext() returns (nx: Option<Node>)
      requires Valid()
      modifies this
      ensures Valid() && ProducersOnly()
      ensures nx.Some? <==> old(HeadLinked())
      ensures nx.Some? ==> HeadLinked() && nx.value == chain[1]
    {
      HeadNext();
      nx := next[consumeEnd];
      Producers();
    }

    /** Pops until `TryPop` fails, so what the handler sees continues the exchange order; with
        the producers quiet it empties the queue. */
    method Drain() returns (out: seq<T>)
      requires Valid()
      modifies this
      ensures Valid() && old(pushed) <= pushed
      ensures popped == old(popped) + out
      ensures Quiet() ==> out == old(Contents()) && Contents() == [] && owed == map[]
    {
      out := [];
      while true
        invariant Valid() && old(pushed) <= pushed && popped == old(popped) + out
        invariant Quiet() ==> owed == map[]
        invariant pushesLeft + |pushed| <= old(pushesLeft) + |old(pushed)|
        decreases old(pushesLeft) + |old(pushed)| - |popped|
      {
        ghost var waiting := Contents();
        var r := TryPop();
        if r.None? {
          if Quiet() {
            assert waiting == [] && pushed == old(pushed) == popped;
            assert out == popped[|old(popped)|..] == old(Contents());
          }
          return;
        }
        out := out + [r.value];
      }
    }
  }
}
