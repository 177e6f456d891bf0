/** The TCP rendezvous table (src/server/tcp_state.rs): announced services and the connection request
    pending at each. Times are in milliseconds. A one-shot channel is named by a number. */
module TcpTable {
  import opened Bytes

  const CONNECTION_REQUEST_TIMEOUT_MS: nat := 5000
  const ANNOUNCEMENT_DURATION_MS: nat := 3000

  type ChannelId = nat
  type Session = x: int | 0 <= x < TWO_64

  datatype Announcement = Announcement(session: Session, app: string, username: string)

  datatype Incoming = Incoming(deadline: Instant, addr: Addr, tx: ChannelId)

  datatype KnownClient =
    KnownClient(lastAnnouncement: Instant, data: Announcement, addr: Addr, pending: Option<Incoming>)

  type Table = map<Session, KnownClient>

  function Takeable(p: Option<Incoming>, now: Instant): (r: Option<Incoming>)
  {
    if p.Some? && p.value.deadline > now then p else None
  }

  /** Announcing refreshes the entry, keeps its pending request, and takes that request if its deadline
      is still ahead. */
  function Announced(t: Table, data: Announcement, addr: Addr, now: Instant): (r: (Table, Option<Incoming>))
  {
    var pending := if data.session in t then t[data.session].pending else None;
    var taken := Takeable(pending, now);
    (t[data.session := KnownClient(now, data, addr, if taken.Some? then None else pending)], taken)
  }

  function Inserted(t: Table, session: Session, addr: Addr, tx: ChannelId, now: Instant): (r: Table)
    requires session in t
  {
    t[session := t[session].(pending := Some(Incoming(now + (CONNECTION_REQUEST_TIMEOUT_MS - 500), addr, tx)))]
  }

  function Cleared(t: Table, session: Session): (r: Table)
  {
    if session in t then t[session := t[session].(pending := None)] else t
  }

  /** The entries announced at most three seconds ago. */
  function Recent(t: Table, now: Instant): (r: Table)
  {
    map k | k in t && Elapsed(now, t[k].lastAnnouncement) <= ANNOUNCEMENT_DURATION_MS :: t[k]
  }

  /** Every entry is filed under the session it announces. */
  ghost predicate Keyed(t: Table)
  {
    forall k :: k in t ==> t[k].data.session == k
  }

  class TcpState {
    var clients: Table

    ghost predicate Valid() reads this { Keyed(clients) }

    constructor ()
      ensures Valid() && clients == map[]
    {
      clients := map[];
    }

    method AnnounceCheck(announce: Announcement, addr: Addr, now: Instant) returns (taken: Option<Incoming>)
      requires Valid()
      modifies this
      ensures Valid()
      ensures (clients, taken) == Announced(old(clients), announce, addr, now)
    {
      if announce.session in clients {
        var e := clients[announce.session];
        clients := clients[announce.session := e.(lastAnnouncement := now, addr := addr, data := announce)];
      } else {
        clients := clients[announce.session := KnownClient(now, announce, addr, None)];
      }
      var entry := clients[announce.session];
      ghost var pending := if announce.session in old(clients) then old(clients)[announce.session].pending else None;
      assert entry == KnownClient(now, announce, addr, pending);
      assert clients == old(clients)[announce.session := entry];
      taken := None;
      if entry.pending.Some? && entry.pending.value.deadline > now {
        taken := entry.pending;
        clients := clients[announce.session := entry.(pending := None)];
        assert clients == old(clients)[announce.session := entry.(pending := None)];
      }
    }

    /** Some: a new request is pending; the address is that of the announced service. */
    method InsertConnectionRequest(session: Session, addr: Addr, tx: ChannelId, now: Instant)
      returns (dst: Option<Addr>)
      requires Valid()
      modifies this
      ensures Valid()
      ensures if session in old(clients) then
                clients == Inserted(old(clients), session, addr, tx, now) && dst == Some(old(clients)[session].addr)
              else clients == old(clients) && dst == None
    {
      dst := None;
      if session in clients {
        var client := clients[session];
        client := client.(pending := Some(Incoming(now + (CONNECTION_REQUEST_TIMEOUT_MS - 500), addr, tx)));
        clients := clients[session := client];
        dst := Some(client.addr);
      }
    }

    method RemoveConnectionRequest(session: Session)
      requires Valid()
      modifies this
      ensures Valid() && clients == Cleared(old(clients), session)
    {
      if session in clients {
        clients := clients[session := clients[session].(pending := None)];
      }
    }

    /** Collects the sessions of outdated entries, then removes them; because entries are filed under
        their own session, what remains are exactly the recent entries. */
    method PollUpdate(now: Instant)
      requires Valid()
      modifies this
      ensures Valid() && clients == Recent(old(clients), now)
    {
      var toRemove: seq<Session> := [];
      var keys := clients.Keys;
      while keys != {}
        invariant keys <= clients.Keys
        invariant clients == old(clients)
        invariant forall k :: k in toRemove <==>
                    k in clients && k !in keys && Elapsed(now, clients[k].lastAnnouncement) > ANNOUNCEMENT_DURATION_MS
        decreases keys
      {
        var k :| k in keys;
        keys := keys - {k};
        if Elapsed(now, clients[k].lastAnnouncement) > ANNOUNCEMENT_DURATION_MS {
          toRemove := toRemove + [clients[k].data.session];
        }
      }
      for i := 0 to |toRemove|
        invariant forall k :: k in clients <==> k in old(clients) && k !in toRemove[..i]
        invariant forall k :: k in clients ==> clients[k] == old(clients)[k]
      {
        clients := clients - {toRemove[i]};
      }
    }
  }
}
