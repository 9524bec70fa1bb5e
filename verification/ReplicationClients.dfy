// What every client is told: a view that differs from the inventory always has
// a message to come.
module ReplicationClients {
  import opened Options
  import opened Collections
  import opened Replication

  ghost predicate Unheard(s: State, client: Client, x: Id) {
    exists k :: client.cursor <= k < |s.out| && s.out[k].id == x
  }

  // A message about `x` is still to come for this client: a notice in its
  // receiver, a lag or a reload that it has not seen, or the signal that the
  // supervisor sends next.
  ghost predicate ToBeTold(s: State, client: Client, x: Id) {
    || Unheard(s, client, x)
    || Lagged(|s.out|, client.cursor)
    || (client.seen.Some? && client.seen.value < s.reloads)
    || s.core.pc.Counting?
    || (s.core.pc.Forwarding? && s.core.pc.id == x)
  }

  ghost predicate Informed(s: State, client: Client) {
    && client.cursor <= |s.out|
    && (client.seen.None? ==> client.stale == ALL_KINDS)
    && (client.seen.Some? ==> client.seen.value <= s.reloads)
    && (forall x :: At(client.view, x) == At(s.core.inv, x) || x.kind in client.stale || ToBeTold(s, client, x))
  }

  ghost predicate AllInformed(s: State) {
    forall c <- s.clients :: Informed(s, s.clients[c])
  }

  lemma AnyKind(kind: Kind)
    ensures kind in ALL_KINDS
  {
  }

  lemma AllStale(client: Client)
    requires client.stale == ALL_KINDS
    ensures forall x: Id :: x.kind in client.stale
  {
    forall x: Id ensures x.kind in client.stale { AnyKind(x.kind); }
  }

  lemma InformedFrame(s: State, t: State, client: Client)
    requires Informed(s, client)
    requires t.out == s.out && t.reloads == s.reloads && t.core.inv == s.core.inv
    requires s.core.pc.Counting? || s.core.pc.Forwarding? ==> t.core.pc == s.core.pc
    ensures Informed(t, client)
  {
    forall x | ToBeTold(s, client, x) ensures ToBeTold(t, client, x) {
      assert Unheard(s, client, x) == Unheard(t, client, x);
    }
  }

  lemma InformedCountReload(s: State, client: Client)
    requires s.core.past != [] && Informed(s, client) && s.core.pc.Counting?
    ensures Informed(Apply(s, Host(CountReload)), client)
  {
    if client.seen.None? { AllStale(client); }
  }

  lemma InformedApplyRefresh(s: State, client: Client)
    requires s.core.past != [] && Informed(s, client) && s.core.pc.Refreshed?
    ensures Informed(Apply(s, Host(ApplyRefresh)), client)
  {
    var t := Apply(s, Host(ApplyRefresh));
    forall x | x != s.core.pc.id ensures At(t.core.inv, x) == At(s.core.inv, x) {}
    forall x | ToBeTold(s, client, x) ensures ToBeTold(t, client, x) {
      assert Unheard(s, client, x) == Unheard(t, client, x);
    }
  }

  lemma InformedForward(s: State, client: Client)
    requires s.core.past != [] && Informed(s, client) && s.core.pc.Forwarding?
    ensures Informed(Apply(s, Host(Forward)), client)
  {
    var t := Apply(s, Host(Forward));
    assert t.out[|s.out|].id == s.core.pc.id;
    forall x | ToBeTold(s, client, x) ensures ToBeTold(t, client, x) {
      if Unheard(s, client, x) {
        var k :| client.cursor <= k < |s.out| && s.out[k].id == x;
        assert t.out[k].id == x;
      }
    }
  }

  // The inventory and its signals change only in these four steps.
  lemma QuietStep(s: Core, h: HostStep)
    requires s.past != [] && HostCan(s, h)
    requires !h.StoreLoad? && !h.CountReload? && !h.ApplyRefresh? && !h.Forward?
    ensures HostApply(s, h).inv == s.inv
    ensures s.pc.Counting? || s.pc.Forwarding? ==> HostApply(s, h).pc == s.pc
  {
  }

  lemma InformedHost(s: State, h: HostStep, client: Client)
    requires s.core.past != [] && Informed(s, client) && HostCan(s.core, h)
    ensures Informed(Apply(s, Host(h)), client)
  {
    if h.CountReload? {
      InformedCountReload(s, client);
    } else if h.ApplyRefresh? {
      InformedApplyRefresh(s, client);
    } else if h.Forward? {
      InformedForward(s, client);
    } else if !h.StoreLoad? {
      QuietStep(s.core, h);
      InformedFrame(s, Apply(s, Host(h)), client);
    }
  }

  lemma InformedHear(s: State, c: nat)
    requires PageCan(s, c, Hear) && Informed(s, s.clients[c])
    ensures Informed(s, PageAfter(s, c, Hear))
  {
    var before, after := s.clients[c], PageAfter(s, c, Hear);
    if Lagged(|s.out|, before.cursor) {
      AllStale(after);
    } else {
      forall x | x != s.out[before.cursor].id && Unheard(s, before, x) ensures Unheard(s, after, x) {
        var k :| before.cursor <= k < |s.out| && s.out[k].id == x;
      }
    }
  }

  lemma InformedFetch(s: State, c: nat, kind: Kind)
    requires PageCan(s, c, Fetch(kind)) && Informed(s, s.clients[c])
    ensures Informed(s, PageAfter(s, c, Fetch(kind)))
  {
    var before, after := s.clients[c], PageAfter(s, c, Fetch(kind));
    forall x ensures At(after.view, x) == if x.kind == kind then At(s.core.inv, x) else At(before.view, x) {}
    forall x | ToBeTold(s, before, x) ensures ToBeTold(s, after, x) {
      assert Unheard(s, before, x) == Unheard(s, after, x);
    }
  }

  lemma InformedPage(s: State, c: nat, p: PageStep)
    requires PageCan(s, c, p) && !p.Leave? && (c in s.clients ==> Informed(s, s.clients[c]))
    ensures Informed(s, PageAfter(s, c, p))
  {
    if p.Hear? {
      InformedHear(s, c);
    } else if p.Fetch? {
      InformedFetch(s, c, p.kind);
    } else {
      AllStale(PageAfter(s, c, p));
    }
  }

  // Every step of libvirt, the supervisor and any client keeps every client
  // informed.
  lemma InformedStep(s: State, step: Step)
    requires s.core.past != [] && AllInformed(s) && Can(s, step)
    ensures AllInformed(Apply(s, step))
  {
    var t := Apply(s, step);
    forall c | c in t.clients ensures Informed(t, t.clients[c]) {
      match step
      case Host(h) => InformedHost(s, h, s.clients[c]);
      case Page(own, p) =>
        if c == own {
          InformedPage(s, c, p);
          InformedFrame(s, t, t.clients[c]);
        } else {
          InformedFrame(s, t, s.clients[c]);
        }
    }
  }

  // A new client hears only what comes after it subscribed: no notice and no reload
  // from before.
  lemma NewClientHearsNothingOld(s: State, c: nat)
    requires s.core.past != [] && PageCan(s, c, Open)
    ensures var t := Apply(s, Page(c, Open));
            && PageCan(t, c, Mark)
            && var u := Apply(t, Page(c, Mark)); !PageCan(u, c, Hear) && !PageCan(u, c, HearReload)
  {
  }

  // Marking drops the reloads so far and nothing else.
  lemma MarkDropsOldReloads(s: State, c: nat)
    requires s.core.past != [] && PageCan(s, c, Mark)
    ensures var t := Apply(s, Page(c, Mark));
            && !PageCan(t, c, HearReload) && t.clients[c].cursor == s.clients[c].cursor
            && t.clients[c].stale == s.clients[c].stale && t.clients[c].view == s.clients[c].view
  {
  }
}
