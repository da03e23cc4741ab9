/**
 The life of a socket in hsock.c (new, bind, connect, unbind, disconnect, destroy)
 against the registry of its node, for sequential calls on any number of sockets.
 */
module Lifecycle {
  import opened HashTable
  import opened FreeBits
  import opened Context

  datatype Status = Unconnected | BoundServer | ConnectedClient

  /** s is the server that holds endpoint e. */
  ghost predicate Holder(ctx: Context, s: Socket, e: nat)
    reads ctx, ctx.serverMap, s
  {
    s.connStatus == BoundServer && s.endpoint == e && e in ctx.Servers() && ctx.Servers()[e] == s.socketId
  }

  /** Every live socket owns its id and its mailbox entry. */
  ghost predicate Registered(ctx: Context, socks: set<Socket>)
    reads ctx, ctx.serverMap, ctx.freelist, ctx.mailbox, ctx.serverMap.Repr()
  {
    && (forall s :: s in socks ==>
                      s.ctx == ctx && s as object !in ctx.Repr() && s.mailbox != 0 && s.socketId < ctx.mailbox.Length
                      && s.socketId !in ctx.FreeIds() && ctx.mailbox[s.socketId] == s.mailbox)
    && (forall s, t :: s in socks && t in socks && s != t ==> s.socketId != t.socketId && s.mailbox != t.mailbox)
    && (forall id :: 0 <= id < ctx.mailbox.Length && id !in ctx.FreeIds() ==>
          exists s :: s in socks && s.socketId == id)
  }

  /** Endpoints in use and bound sockets correspond one to one. */
  ghost predicate Endpoints(ctx: Context, socks: set<Socket>)
    reads ctx, ctx.serverMap, socks
  {
    && (forall s :: s in socks && s.connStatus == BoundServer ==> s.endpoint < ENDPOINTS && Holder(ctx, s, s.endpoint))
    && (forall e :: ctx.Bound(e) ==> exists s :: s in socks && Holder(ctx, s, e))
  }

  ghost predicate Registry(ctx: Context, socks: set<Socket>)
    reads ctx, ctx.serverMap, ctx.Repr(), socks
  {
    ctx.Valid() && Registered(ctx, socks) && Endpoints(ctx, socks)
  }

  /** An endpoint in use has exactly one holder, and its mailbox is the one the registry gives out. */
  lemma UniqueHolder(ctx: Context, socks: set<Socket>, e: nat)
    requires Registry(ctx, socks) && ctx.Bound(e)
    ensures exists s :: s in socks && Holder(ctx, s, e) && ctx.mailbox[ctx.Servers()[e]] == s.mailbox != 0
    ensures forall s, t :: s in socks && t in socks && Holder(ctx, s, e) && Holder(ctx, t, e) ==> s == t
  {
    var s :| s in socks && Holder(ctx, s, e);
    assert ctx.mailbox[s.socketId] == s.mailbox;
  }

  /** hctx_new: a fresh registry, with no socket yet. */
  method NewRegistry(words: nat) returns (ctx: Context)
    requires words <= 2048
    ensures fresh(ctx.Repr()) && Registry(ctx, {}) && forall id :: id in ctx.FreeIds() <==> 0 <= id < 32 * words
    ensures forall e :: !ctx.Bound(e)
  {
    hide IsFree, Free, Table.Valid;
    ctx := new Context(words);
  }

  /** hsock_new; null stands for the process exit when no socket id is free. */
  method NewSocket(ctx: Context, box: nat, ghost socks: set<Socket>) returns (s: Socket?, ghost socks': set<Socket>)
    requires Registry(ctx, socks) && box != 0 && forall t :: t in socks ==> t.mailbox != box
    modifies ctx.freelist, ctx.mailbox
    ensures Registry(ctx, socks') && ctx.Servers() == old(ctx.Servers())
    ensures s == null <==> old(ctx.FreeIds()) == {}
    ensures s == null ==> socks' == socks
    ensures s != null ==>
      fresh(s) && socks' == socks + {s} && s.ctx == ctx && s.mailbox == box && s.connStatus == Unconnected
  {
    hide Context.Valid, IsFree, Free, Table.Valid;
    var id := ctx.Register(box);
    if id < 0 { return null, socks; }
    s := new Socket(ctx, id, box);
    assert ctx.Repr() == old(ctx.Repr()) && s !in ctx.Repr();
    socks' := socks + {s};
  }

  class Socket {
    const ctx: Context
    const socketId: nat
    const mailbox: nat
    var connStatus: Status
    var endpoint: nat         // of a bound server
    var serverMailbox: nat    // of a connected client

    constructor (ctx: Context, id: nat, box: nat)
      ensures this.ctx == ctx && socketId == id && mailbox == box && connStatus == Unconnected
    {
      this.ctx, socketId, mailbox := ctx, id, box;
      connStatus, endpoint, serverMailbox := Unconnected, 0, 0;
    }

    /** hsock_bind: succeeds exactly when no live socket is bound to the endpoint (memory permitting). */
    method Bind(endpoint: nat, alloc: Allocation, ghost socks: set<Socket>) returns (ok: bool)
      requires Registry(ctx, socks) && this in socks && connStatus == Unconnected && endpoint < ENDPOINTS
      modifies this, ctx.Repr()
      ensures Registry(ctx, socks)
      ensures ok ==> Holder(ctx, this, endpoint) && forall t :: t in socks ==> !old(Holder(ctx, t, endpoint))
      ensures !ok ==> connStatus == Unconnected && ctx.Servers() == old(ctx.Servers())
      ensures !ok <==>
        old(ctx.serverMap.Starves(alloc)) || (exists t :: t in socks && t != this && old(Holder(ctx, t, endpoint)))
    {
      hide Context.Valid, IsFree, Free, Table.Valid;
      ok := ctx.Bind(endpoint, socketId, alloc);
      if ok {
        connStatus := BoundServer;
        this.endpoint := endpoint;
        assert Holder(ctx, this, endpoint);
      }
      forall e | ctx.Bound(e) && (!ok || e != endpoint) ensures exists t :: t in socks && Holder(ctx, t, e) {
        assert old(ctx.Bound(e));
        var t :| t in socks && old(Holder(ctx, t, e));
        assert Holder(ctx, t, e);
      }
    }

    /** The mailbox that the peer returned becomes the destination. */
    method Adopt(box: nat, ghost socks: set<Socket>)
      requires Registry(ctx, socks) && this in socks && connStatus == Unconnected
      modifies this
      ensures Registry(ctx, socks) && connStatus == ConnectedClient && serverMailbox == box && endpoint == old(endpoint)
    {
      hide Context.Valid, IsFree, Free, Table.Valid;
      serverMailbox := box;
      connStatus := ConnectedClient;
    }

    /** hsock_connect: obtains the mailbox of the server bound at the peer, or fails if there is none. */
    method Connect(peer: Context, endpoint: nat, ghost socks: set<Socket>,
                   ghost peerSocks: set<Socket>) returns (ok: bool)
      requires Registry(ctx, socks) && this in socks && connStatus == Unconnected && endpoint < ENDPOINTS
      requires Registry(peer, peerSocks) && (peer == ctx ==> peerSocks == socks)
      requires (peer != ctx ==> this !in peerSocks && this as object !in peer.Repr())
      modifies this
      ensures Registry(ctx, socks) && Registry(peer, peerSocks)
      ensures ok == peer.Bound(endpoint)
      ensures ok ==> connStatus == ConnectedClient
      ensures ok ==> exists t :: t in peerSocks && Holder(peer, t, endpoint) && serverMailbox == t.mailbox
      ensures !ok ==> connStatus == Unconnected
    {
      hide Context.Valid, IsFree, Free, Table.Valid;
      var box := peer.MailboxAt(endpoint);
      ok := box != 0;
      assert this as object !in ctx.Repr();
      if peer.Bound(endpoint) { UniqueHolder(peer, peerSocks, endpoint); }
      hide Registry;
      if ok { Adopt(box, socks); }
    }

    /** hsock_unbind */
    method Unbind(ghost socks: set<Socket>)
      requires Registry(ctx, socks) && this in socks && connStatus == BoundServer
      modifies this, ctx.Repr()
      ensures Registry(ctx, socks) && connStatus == Unconnected && !ctx.Bound(old(endpoint))
      ensures forall e :: e != old(endpoint) ==> ctx.Bound(e) == old(ctx.Bound(e))
    {
      hide Context.Valid, IsFree, Free, Table.Valid;
      ctx.Unbind(endpoint);
      connStatus := Unconnected;
      forall e | ctx.Bound(e) ensures exists t :: t in socks && Holder(ctx, t, e) {
        assert old(ctx.Bound(e));
        var t :| t in socks && old(Holder(ctx, t, e));
        assert Holder(ctx, t, e);
      }
    }

    /** hsock_disconnect */
    method Disconnect(ghost socks: set<Socket>)
      requires Registry(ctx, socks) && this in socks && connStatus == ConnectedClient
      modifies this
      ensures Registry(ctx, socks) && connStatus == Unconnected
    {
      hide Context.Valid, IsFree, Free, Table.Valid;
      connStatus := Unconnected;
    }

    /** hsock_destroy: releases the endpoint, if any, and the socket id. */
    method Destroy(ghost socks: set<Socket>) returns (ghost socks': set<Socket>)
      requires Registry(ctx, socks) && this in socks
      modifies this, ctx.Repr()
      ensures Registry(ctx, socks') && socks' == socks - {this}
      ensures socketId in ctx.FreeIds()
    {
      hide Context.Valid, IsFree, Free, Table.Valid;
      if connStatus == BoundServer {
        Unbind(socks);
      } else if connStatus == ConnectedClient {
        Disconnect(socks);
      }
      ctx.Unregister(socketId);
      socks' := socks - {this};
    }
  }
}
