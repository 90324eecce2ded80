// The router manager of the MQTT 5 server (`mqtt5/server/RouterManager.go`):
// the table from header byte to router, the CONNECT verifier, the per-client
// worker shard and the FNV-1a hash that picks it.

module RouterManager5 {
  import opened Bytes
  import opened Proto5
  import Connect5
  import Server5

  /** The routers the server installs, and any router a user adds. */
  datatype Router =
    | ConnectRouter | DisconnectRouter | PingreqRouter | SubscribeRouter | UnsubscribeRouter
    | PublishRouter | PubackRouter | PubrelRouter | PubrecRouter | PubcompRouter
    | UserRouter(tag: nat)

  /** A request as the router manager sees it: the client id of its
   *  connection and the header byte of its packet. */
  datatype Request = Request(clientId: seq<byte>, headerFlag: byte)

  /** One call into a router. */
  datatype Step = PreHandle(router: Router, request: Request)
                | Handle(router: Router, request: Request)
                | PostHandle(router: Router, request: Request)

  /** The table `newRouterManager` builds. */
  function DefaultTable(): map<byte, Router>
  {
    map[CONNECT := ConnectRouter, DISCONNECT := DisconnectRouter, PINGREQ := PingreqRouter,
        SUBSCRIBE := SubscribeRouter, UNSUBSCRIBE := UnsubscribeRouter,
        PUBLISH := PublishRouter, PUBLISH31 := PublishRouter, PUBLISH32 := PublishRouter,
        PUBLISH33 := PublishRouter, PUBLISH34 := PublishRouter,
        PUBACK := PubackRouter, PUBREL := PubrelRouter, PUBREC := PubrecRouter, PUBCOMP := PubcompRouter]
  }

  /** The default table serves exactly fourteen header bytes. Of the bytes the
   *  decoder accepts as a packet, it has no router for AUTH and none for the
   *  PUBLISH bytes 0x35 to 0x3D: such packets decode and are then dropped. */
  lemma DefaultTableFlags()
    ensures forall flag :: flag in DefaultTable() <==>
      flag in {0x10, 0xE0, 0xC0, 0x82, 0xA2, 0x30, 0x31, 0x32, 0x33, 0x34, 0x40, 0x62, 0x50, 0x70}
    ensures forall flag :: flag in DefaultTable() ==> flag == CONNECT || Server5.Dispatched(flag)
    ensures AUTH !in DefaultTable() && Server5.Dispatched(AUTH)
    ensures forall flag :: 0x35 <= flag <= 0x3D ==> flag !in DefaultTable() && Server5.Dispatched(flag)
  {
  }

  /** FNV-1a over 32 bits, as `hash/fnv`'s `New32a` computes it. */
  const FnvOffset: bv32 := 2166136261
  const FnvPrime: bv32 := 16777619

  /** One byte of FNV-1a: xor it in, then multiply by the prime modulo 2^32. */
  function FnvStep(h: bv32, b: byte): bv32
  {
    (h ^ (b as bv32)) * FnvPrime
  }

  /** The FNV-1a hash of `s`, byte by byte from the offset basis. */
  function Fnv1a(s: seq<byte>): bv32
  {
    if s == [] then FnvOffset else FnvStep(Fnv1a(s[..|s| - 1]), s[|s| - 1])
  }

  /** Two published FNV-1a test values: the empty string and "a". */
  lemma Fnv1aVectors()
    ensures Fnv1a([]) == 0x811c9dc5
    ensures Fnv1a([0x61]) == 0xe40c292c
  {
    var a: seq<byte> := [0x61];
    assert a[..0] == [];
    assert Fnv1a(a) == FnvStep(FnvOffset, 0x61);
    assert FnvOffset ^ 0x61 == 0x811c9da4;
    assert (0x811c9da4 as bv32) * FnvPrime == 0xe40c292c;
  }

  /** `dHash`: FNV-1a of the client id, computed byte by byte. */
  method DHash(s: seq<byte>) returns (h: bv32)
    ensures h == Fnv1a(s)
  {
    h := FnvOffset;
    var i := 0;
    while i < |s|
      invariant 0 <= i <= |s|
      invariant h == Fnv1a(s[..i])
    {
      assert s[..i + 1][..i] == s[..i];
      h := FnvStep(h, s[i]);
      i := i + 1;
    }
    assert s[..|s|] == s;
  }

  /** The worker `sendReqToTaskQueue` picks: `dHash(cid) % workPoolSize`. It
   *  depends on the client id alone, and a pool of size 0 has no worker (Go
   *  would divide by zero). */
  function ShardIndex(clientId: seq<byte>, workPoolSize: nat): (wid: nat)
    requires 0 < workPoolSize < 0x1_0000_0000
    ensures wid < workPoolSize
  {
    (Fnv1a(clientId) as int) % workPoolSize
  }

  /** `RouterManager`. Each task queue is modelled as the sequence of the
   *  requests put on it. */
  class RouterManager {
    var routerMap: map<byte, Router>
    var connectVerify: Connect5.Connect -> byte
    var workPoolSize: nat
    var taskQueue: seq<seq<Request>>
    var poolOn: bool

    /** `workPoolSize` is a `uint32` and there is one queue per worker. */
    ghost predicate Valid()
      reads this
    {
      workPoolSize < 0x1_0000_0000 && |taskQueue| == workPoolSize
    }

    /** `newRouterManager`: the default table, a verifier that accepts every
     *  CONNECT with code 0, one empty queue per worker, and the pool off. */
    constructor (workPoolSize: nat)
      requires workPoolSize < 0x1_0000_0000
      ensures Valid()
      ensures routerMap == DefaultTable()
      ensures forall c :: connectVerify(c) == 0
      ensures this.workPoolSize == workPoolSize && !poolOn
      ensures forall i :: 0 <= i < |taskQueue| ==> taskQueue[i] == []
    {
      routerMap := map[];
      connectVerify := (c: Connect5.Connect) => 0;
      this.workPoolSize := workPoolSize;
      taskQueue := seq(workPoolSize, _ => []);
      poolOn := false;
      new;
      AddRouter(CONNECT, ConnectRouter);
      AddRouter(DISCONNECT, DisconnectRouter);
      AddRouter(PINGREQ, PingreqRouter);
      AddRouter(SUBSCRIBE, SubscribeRouter);
      AddRouter(UNSUBSCRIBE, UnsubscribeRouter);
      AddRouter(PUBLISH, PublishRouter);
      AddRouter(PUBLISH31, PublishRouter);
      AddRouter(PUBLISH32, PublishRouter);
      AddRouter(PUBLISH33, PublishRouter);
      AddRouter(PUBLISH34, PublishRouter);
      AddRouter(PUBACK, PubackRouter);
      AddRouter(PUBREL, PubrelRouter);
      AddRouter(PUBREC, PubrecRouter);
      AddRouter(PUBCOMP, PubcompRouter);
    }

    /** `setConnectVerify`: the new verifier replaces the old; nothing else changes. */
    method SetConnectVerify(cvf: Connect5.Connect -> byte)
      modifies this
      ensures connectVerify == cvf
      ensures routerMap == old(routerMap) && workPoolSize == old(workPoolSize)
      ensures taskQueue == old(taskQueue) && poolOn == old(poolOn)
    {
      connectVerify := cvf;
    }

    /** `addRouter`: entry `i` becomes `router`, overriding a default; every
     *  other entry and field stays as it was. */
    method AddRouter(i: byte, router: Router)
      modifies this
      ensures routerMap == old(routerMap)[i := router]
      ensures forall j :: j != i ==> (j in routerMap <==> j in old(routerMap))
      ensures forall j :: j != i && j in routerMap ==> routerMap[j] == old(routerMap)[j]
      ensures connectVerify == old(connectVerify) && workPoolSize == old(workPoolSize)
      ensures taskQueue == old(taskQueue) && poolOn == old(poolOn)
    {
      routerMap := routerMap[i := router];
    }

    /** `doRouterFunc`: a header byte without a router runs nothing; otherwise
     *  its router's PreHandle, Handle and PostHandle run once each, in that
     *  order. */
    method DoRouterFunc(request: Request) returns (steps: seq<Step>)
      ensures request.headerFlag !in routerMap <==> steps == []
      ensures request.headerFlag in routerMap ==>
        var r := routerMap[request.headerFlag];
        steps == [PreHandle(r, request), Handle(r, request), PostHandle(r, request)]
    {
      if request.headerFlag !in routerMap {
        return [];
      }
      var r := routerMap[request.headerFlag];
      steps := [PreHandle(r, request)];
      steps := steps + [Handle(r, request)];
      steps := steps + [PostHandle(r, request)];
    }

    /** `workPoolIsOn`. */
    method WorkPoolIsOn() returns (on: bool)
      ensures on == poolOn
    {
      on := poolOn;
    }

    /** `startWorkerPool`, without its goroutines: every worker gets a fresh,
     *  empty queue, then the pool is marked on. */
    method StartWorkerPool()
      requires Valid()
      modifies this
      ensures Valid() && poolOn
      ensures forall i :: 0 <= i < |taskQueue| ==> taskQueue[i] == []
      ensures routerMap == old(routerMap) && connectVerify == old(connectVerify)
      ensures workPoolSize == old(workPoolSize)
    {
      var i := 0;
      while i < workPoolSize
        invariant 0 <= i <= workPoolSize && Valid()
        invariant forall j :: 0 <= j < i ==> taskQueue[j] == []
        invariant routerMap == old(routerMap) && connectVerify == old(connectVerify)
        invariant workPoolSize == old(workPoolSize)
      {
        taskQueue := taskQueue[i := []];
        i := i + 1;
      }
      poolOn := true;
    }

    /** `sendReqToTaskQueue`: the request joins the end of the queue of the
     *  worker its client id hashes to; no other queue changes. Before
     *  `startWorkerPool` every queue is a nil channel, on which the send would
     *  block forever; callers test `workPoolIsOn` first. */
    method SendReqToTaskQueue(request: Request) returns (wid: nat)
      requires Valid() && workPoolSize > 0 && poolOn
      modifies this
      ensures Valid() && workPoolSize == old(workPoolSize)
      ensures wid == ShardIndex(request.clientId, workPoolSize) && wid < |old(taskQueue)|
      ensures taskQueue == old(taskQueue)[wid := old(taskQueue)[wid] + [request]]
      ensures routerMap == old(routerMap) && connectVerify == old(connectVerify) && poolOn == old(poolOn)
    {
      var h := DHash(request.clientId);
      wid := (h as int) % workPoolSize;
      taskQueue := taskQueue[wid := taskQueue[wid] + [request]];
    }
  }
}
