// Websocket clients, their subscriptions, and broadcasting.

module Websocket {
  import opened Types
  import opened Slices

  class Client {
    const subs: Slice<string>

    constructor ()
      ensures fresh(subs) && subs.Valid() && fresh(subs.store) && subs.Contents() == []
    {
      subs := new Slice<string>();
    }

    method IsSubscribed(data: string) returns (found: bool)
      requires subs.Valid()
      ensures found <==> data in subs.Contents()
    {
      found := subs.Contains(data);
    }

    method Subscribe(sub: string)
      requires subs.Valid()
      modifies subs, subs.store
      ensures subs.Valid() && (subs.store == old(subs.store) || fresh(subs.store))
      ensures subs.Contents() == old(subs.Contents()) + if sub in old(subs.Contents()) then [] else [sub]
    {
      var found := IsSubscribed(sub);
      if !found {
        subs.Append(sub);
      }
    }

    // False stands for the panic of a cut out of range.
    method Unsubscribe(sub: string) returns (inRange: bool)
      requires subs.Valid()
      modifies subs, subs.store
      ensures subs.Valid() && subs.store == old(subs.store)
      ensures inRange <==> !Trapped(old(subs.Contents()), sub)
      ensures inRange ==> subs.Contents() == Swept(old(subs.Contents()), sub)
      ensures Distinct(old(subs.Contents())) ==> inRange && subs.Contents() == Without(old(subs.Contents()), sub)
    {
      SweepRemovesIff(subs.Contents(), sub);
      SweptIsRemovalIff(subs.Contents(), sub);
      inRange := subs.Sweep(sub);
    }

    // Serves the messages that arrive until the connection fails.
    method Serve(messages: seq<Message>) returns (inRange: bool)
      requires subs.Valid() && Distinct(subs.Contents())
      modifies subs, subs.store
      ensures subs.Valid() && inRange
      ensures subs.Contents() == AfterAll(old(subs.Contents()), messages) && Distinct(subs.Contents())
      ensures forall d :: d in subs.Contents() <==> Stands(messages, d, d in old(subs.Contents()))
    {
      ghost var before := subs.Contents();
      for i := 0 to |messages|
        invariant subs.Valid() && (subs.store == old(subs.store) || fresh(subs.store))
        invariant subs.Contents() == AfterAll(before, messages[..i]) && Distinct(subs.Contents())
      {
        assert messages[..i + 1][..i] == messages[..i];
        AfterKeepsDistinct(subs.Contents(), messages[i]);
        var data := match messages[i].sub case Some(d) => d case None => "";
        if messages[i].kind == "subscribe" {
          Subscribe(data);
        }
        if messages[i].kind == "unsubscribe" {
          var done := Unsubscribe(data);
          if !done {
            return false;
          }
        }
      }
      assert messages[..|messages|] == messages;
      forall d ensures d in subs.Contents() <==> Stands(messages, d, d in before) {
        HeldIff(before, messages, d);
      }
      return true;
    }
  }

  function Subscribed(subs: seq<string>, sub: string): seq<string> {
    if sub in subs then subs else subs + [sub]
  }

  // A message without a text under "sub" means the empty subscription.
  datatype Message = Message(kind: string, sub: Option<string>)

  function Named(m: Message): string {
    if m.sub.Some? then m.sub.value else ""
  }

  function After(subs: seq<string>, m: Message): seq<string> {
    if m.kind == "subscribe" then Subscribed(subs, Named(m))
    else if m.kind == "unsubscribe" then Without(subs, Named(m))
    else subs
  }

  function AfterAll(subs: seq<string>, ms: seq<Message>): seq<string> {
    if ms == [] then subs else After(AfterAll(subs, ms[..|ms| - 1]), ms[|ms| - 1])
  }

  function SetAfterAll(set0: set<string>, ms: seq<Message>): set<string> {
    if ms == [] then set0
    else
      var s, m := SetAfterAll(set0, ms[..|ms| - 1]), ms[|ms| - 1];
      match m
      case Message("subscribe", Some(d)) => s + {d}
      case Message("subscribe", None) => s + {""}
      case Message("unsubscribe", Some(d)) => s - {d}
      case Message("unsubscribe", None) => s - {""}
      case _ => s
  }

  // The subscription a message speaks of.
  predicate About(m: Message, d: string) {
    match m.sub
    case Some(x) => x == d
    case None => d == ""
  }

  ghost predicate NoneEnds(ms: seq<Message>, from: nat, d: string) {
    forall j :: from <= j < |ms| && ms[j].kind == "unsubscribe" ==> !About(ms[j], d)
  }

  /** Some message subscribes to d, or d was there before, and no later one unsubscribes from it. */
  ghost predicate Stands(ms: seq<Message>, d: string, was: bool) {
    || (was && NoneEnds(ms, 0, d))
    || exists i :: 0 <= i < |ms| && ms[i].kind == "subscribe" && About(ms[i], d) && NoneEnds(ms, i + 1, d)
  }

  lemma StandsSnoc(ms: seq<Message>, m: Message, d: string, was: bool)
    ensures Stands(ms + [m], d, was) <==>
      if m.kind == "subscribe" && About(m, d) then true
      else Stands(ms, d, was) && !(m.kind == "unsubscribe" && About(m, d))
  {
    var all := ms + [m];
    assert all[|ms|] == m && forall i :: 0 <= i < |ms| ==> all[i] == ms[i];
    forall from: nat | from <= |ms|
      ensures NoneEnds(all, from, d) <==> NoneEnds(ms, from, d) && !(m.kind == "unsubscribe" && About(m, d))
    {
    }
    assert NoneEnds(all, |ms| + 1, d);
  }

  /** Whatever the order and repetition of messages: a subscription is held afterwards exactly if
      it was subscribed to, or held before, and not unsubscribed from since. */
  lemma {:induction false} HeldIff(subs: seq<string>, ms: seq<Message>, d: string)
    requires Distinct(subs)
    ensures Distinct(AfterAll(subs, ms))
    ensures d in AfterAll(subs, ms) <==> Stands(ms, d, d in subs)
  {
    if ms != [] {
      var init, m := ms[..|ms| - 1], ms[|ms| - 1];
      HeldIff(subs, init, d);
      StandsSnoc(init, m, d, d in subs);
      assert ms == init + [m];
      AfterKeepsDistinct(AfterAll(subs, init), m);
      WithoutIsFilter(AfterAll(subs, init), Named(m));
    }
  }

  lemma AfterKeepsDistinct(subs: seq<string>, m: Message)
    requires Distinct(subs)
    ensures Distinct(After(subs, m))
  {
    WithoutIsFilter(subs, Named(m));
  }

  /** Any run from no subscriptions keeps them distinct and is a run of set insertions and
      deletions; no unsubscribe on the way cuts out of range. */
  lemma {:induction false} RunRefinesSet(ms: seq<Message>)
    ensures var subs := AfterAll([], ms);
      && Distinct(subs)
      && (forall s :: s in subs <==> s in SetAfterAll({}, ms))
      && forall x :: !Trapped(subs, x) && SweepFrom(subs, |subs|, x, 0) == Some(Without(subs, x))
  {
    var subs := AfterAll([], ms);
    if ms != [] {
      var before := ms[..|ms| - 1];
      RunRefinesSet(before);
      AfterKeepsDistinct(AfterAll([], before), ms[|ms| - 1]);
      WithoutIsFilter(AfterAll([], before), Named(ms[|ms| - 1]));
    }
    forall x ensures !Trapped(subs, x) && SweepFrom(subs, |subs|, x, 0) == Some(Without(subs, x)) {
      SweepRemovesIff(subs, x);
    }
  }

  // ---- The application ----

  class App {
    const clients: Slice<Client>

    constructor ()
      ensures fresh(clients) && clients.Valid() && fresh(clients.store) && clients.Contents() == []
    {
      clients := new Slice<Client>();
    }

    method Register() returns (client: Client)
      requires clients.Valid()
      modifies clients, clients.store
      ensures clients.Valid() && (clients.store == old(clients.store) || fresh(clients.store))
      ensures fresh(client) && fresh(client.subs) && client.subs.Valid() && fresh(client.subs.store)
      ensures client.subs.Contents() == []
      ensures clients.Contents() == old(clients.Contents()) + [client]
      ensures old(Distinct(clients.Contents())) ==> Distinct(clients.Contents())
    {
      client := new Client();
      clients.Append(client);
    }

    method Remove(client: Client) returns (inRange: bool)
      requires clients.Valid()
      modifies clients, clients.store
      ensures clients.Valid() && clients.store == old(clients.store)
      ensures inRange <==> !Trapped(old(clients.Contents()), client)
      ensures inRange ==> clients.Contents() == Swept(old(clients.Contents()), client)
      ensures Distinct(old(clients.Contents())) ==>
                && inRange && clients.Contents() == Without(old(clients.Contents()), client)
                && Distinct(clients.Contents())
    {
      SweepRemovesIff(clients.Contents(), client);
      SweptIsRemovalIff(clients.Contents(), client);
      WithoutIsFilter(clients.Contents(), client);
      inRange := clients.Sweep(client);
    }

    // The clients that Broadcast sends to, in order.
    method Broadcast(sub: string) returns (receivers: seq<Client>)
      requires clients.Valid() && forall c <- clients.Contents() :: c.subs.Valid()
      ensures receivers == Receivers(clients.Contents(), Subscriptions(clients.Contents()), sub)
    {
      receivers := [];
      ghost var subsOf := Subscriptions(clients.Contents());
      for i := 0 to clients.len
        invariant forall c <- clients.store[..i] :: c in subsOf
        invariant receivers == Receivers(clients.store[..i], subsOf, sub)
      {
        var c := clients.store[i];
        assert clients.store[..i + 1] == clients.store[..i] + [c];
        ghost var before := receivers;
        assert c in clients.Contents();
        for j := 0 to c.subs.len
          invariant receivers == before + Times(c, c.subs.store[..j], sub)
        {
          assert c.subs.store[..j + 1][..j] == c.subs.store[..j];
          if c.subs.store[j] == sub {
            receivers := receivers + [c];
          }
        }
      }
    }
  }

  // c once per occurrence of sub.
  function Times(c: Client, subs: seq<string>, sub: string): seq<Client> {
    if subs == [] then []
    else Times(c, subs[..|subs| - 1], sub) + (if subs[|subs| - 1] == sub then [c] else [])
  }

  // What each client is subscribed to.
  ghost function Subscriptions(cs: seq<Client>): (m: map<Client, seq<string>>)
    requires forall c <- cs :: c.subs.Valid()
    reads set c | c in cs :: c.subs, set c | c in cs :: c.subs.store
    ensures forall c <- cs :: c in m
  {
    map c | c in cs :: c.subs.Contents()
  }

  function Receivers(cs: seq<Client>, subsOf: map<Client, seq<string>>, sub: string): seq<Client>
    requires forall c <- cs :: c in subsOf
  {
    if cs == [] then []
    else
      var c := cs[|cs| - 1];
      Receivers(cs[..|cs| - 1], subsOf, sub) + Times(c, subsOf[c], sub)
  }

  lemma {:induction false} TimesOnce(c: Client, subs: seq<string>, sub: string)
    requires Distinct(subs)
    ensures Times(c, subs, sub) == if sub in subs then [c] else []
  {
    if subs != [] {
      TimesOnce(c, subs[..|subs| - 1], sub);
    }
  }

  predicate Subsequence(part: seq<Client>, whole: seq<Client>) {
    if part == [] then true
    else if whole == [] then false
    else
      var p, w := part[..|part| - 1], whole[..|whole| - 1];
      Subsequence(part, w) || (part[|part| - 1] == whole[|whole| - 1] && Subsequence(p, w))
  }

  lemma ReceiversStep(cs: seq<Client>, subsOf: map<Client, seq<string>>, sub: string)
    requires cs != [] && forall c <- cs :: c in subsOf && Distinct(subsOf[c])
    ensures var front, c := cs[..|cs| - 1], cs[|cs| - 1];
      Receivers(cs, subsOf, sub) == Receivers(front, subsOf, sub) + if sub in subsOf[c] then [c] else []
  {
    TimesOnce(cs[|cs| - 1], subsOf[cs[|cs| - 1]], sub);
  }

  lemma {:induction false} ReceiversMembers(cs: seq<Client>, subsOf: map<Client, seq<string>>, sub: string)
    requires Distinct(cs) && forall c <- cs :: c in subsOf && Distinct(subsOf[c])
    ensures Distinct(Receivers(cs, subsOf, sub))
    ensures forall c :: c in Receivers(cs, subsOf, sub) <==> c in cs && sub in subsOf[c]
  {
    if cs != [] {
      var front, c := cs[..|cs| - 1], cs[|cs| - 1];
      ReceiversMembers(front, subsOf, sub);
      ReceiversStep(cs, subsOf, sub);
      assert cs == front + [c] && c !in front;
    }
  }

  lemma {:induction false} ReceiversInOrder(cs: seq<Client>, subsOf: map<Client, seq<string>>, sub: string)
    requires forall c <- cs :: c in subsOf && Distinct(subsOf[c])
    ensures Subsequence(Receivers(cs, subsOf, sub), cs)
  {
    if cs != [] {
      var front := cs[..|cs| - 1];
      ReceiversInOrder(front, subsOf, sub);
      ReceiversStep(cs, subsOf, sub);
      var rs, all := Receivers(front, subsOf, sub), Receivers(cs, subsOf, sub);
      assert all == rs || (all[..|all| - 1] == rs && all[|all| - 1] == cs[|cs| - 1]);
    }
  }

  /** Every subscribed client receives a broadcast exactly once, in order of registration, and
      nobody else does. */
  lemma BroadcastReachesOnce(cs: seq<Client>, subsOf: map<Client, seq<string>>, sub: string)
    requires Distinct(cs) && forall c <- cs :: c in subsOf && Distinct(subsOf[c])
    ensures forall c :: c in Receivers(cs, subsOf, sub) <==> c in cs && sub in subsOf[c]
    ensures Distinct(Receivers(cs, subsOf, sub)) && Subsequence(Receivers(cs, subsOf, sub), cs)
  {
    ReceiversMembers(cs, subsOf, sub);
    ReceiversInOrder(cs, subsOf, sub);
  }

  // ---- Whole runs of the application ----

  datatype Event = Registered(c: Client) | Removed(c: Client) | Received(c: Client, m: Message)

  /** The registered clients in order, and what every client ever registered is subscribed to. */
  datatype Hub = Hub(cs: seq<Client>, subsOf: map<Client, seq<string>>)

  // A registered client is a new object; one whose connection was removed may still be served.
  predicate Possible(h: Hub, e: Event) {
    match e
    case Registered(c) => c !in h.subsOf
    case Removed(_) => true
    case Received(c, _) => c in h.subsOf
  }

  function Happen(h: Hub, e: Event): Hub
    requires Possible(h, e)
  {
    match e
    case Registered(c) => Hub(h.cs + [c], h.subsOf[c := []])
    case Removed(c) => h.(cs := Without(h.cs, c))
    case Received(c, m) => h.(subsOf := h.subsOf[c := After(h.subsOf[c], m)])
  }

  predicate Run(h: Hub, es: seq<Event>, g: Hub)
    decreases |es|
  {
    if es == [] then h == g else Possible(h, es[0]) && Run(Happen(h, es[0]), es[1..], g)
  }

  // Who should receive what, as sets: those connected, and their standing wishes.
  datatype Wishes = Wishes(connected: set<Client>, wants: set<(Client, string)>)

  function Note(w: Wishes, e: Event): Wishes {
    match e
    case Registered(c) => w.(connected := w.connected + {c})
    case Removed(c) => w.(connected := w.connected - {c})
    case Received(c, m) =>
      match m
      case Message("subscribe", Some(d)) => w.(wants := w.wants + {(c, d)})
      case Message("subscribe", None) => w.(wants := w.wants + {(c, "")})
      case Message("unsubscribe", Some(d)) => w.(wants := w.wants - {(c, d)})
      case Message("unsubscribe", None) => w.(wants := w.wants - {(c, "")})
      case _ => w
  }

  function NoteAll(w: Wishes, es: seq<Event>): Wishes
    decreases |es|
  {
    if es == [] then w else NoteAll(Note(w, es[0]), es[1..])
  }

  ghost predicate HubInv(h: Hub, w: Wishes) {
    && Distinct(h.cs) && (forall c <- h.cs :: c in h.subsOf)
    && (forall c <- h.subsOf :: Distinct(h.subsOf[c]))
    && (forall c <- h.cs :: c in w.connected) && (forall c <- w.connected :: c in h.cs)
    && (forall p <- w.wants :: p.0 in h.subsOf && p.1 in h.subsOf[p.0])
    && (forall c <- h.subsOf :: forall s <- h.subsOf[c] :: (c, s) in w.wants)
  }

  lemma HubStep(h: Hub, w: Wishes, e: Event)
    requires HubInv(h, w) && Possible(h, e)
    ensures HubInv(Happen(h, e), Note(w, e))
  {
    match e
    case Registered(c) =>
    case Removed(c) => WithoutIsFilter(h.cs, c);
    case Received(c, m) =>
      AfterKeepsDistinct(h.subsOf[c], m);
      WithoutIsFilter(h.subsOf[c], Named(m));
  }

  lemma {:induction false} HubRun(h: Hub, w: Wishes, es: seq<Event>, g: Hub)
    requires HubInv(h, w) && Run(h, es, g)
    ensures HubInv(g, NoteAll(w, es))
    decreases |es|
  {
    if es != [] {
      HubStep(h, w, es[0]);
      HubRun(Happen(h, es[0]), Note(w, es[0]), es[1..], g);
    }
  }

  /** At any point of any run of registrations, removals and messages, a broadcast goes to exactly
      the connected clients whose last word on the subscription was to subscribe, once to each,
      in order of registration; and no removal or unsubscription on the way cuts out of range. */
  lemma BroadcastInRun(es: seq<Event>, h: Hub, sub: string)
    requires Run(Hub([], map[]), es, h)
    ensures var w := NoteAll(Wishes({}, {}), es);
      && (forall c <- h.cs :: c in h.subsOf)
      && (forall c :: c in Receivers(h.cs, h.subsOf, sub) <==> c in w.connected && (c, sub) in w.wants)
      && Distinct(Receivers(h.cs, h.subsOf, sub)) && Subsequence(Receivers(h.cs, h.subsOf, sub), h.cs)
      && (forall c :: !Trapped(h.cs, c))
      && (forall c <- h.subsOf :: !Trapped(h.subsOf[c], sub))
  {
    HubRun(Hub([], map[]), Wishes({}, {}), es, h);
    BroadcastReachesOnce(h.cs, h.subsOf, sub);
    forall c ensures !Trapped(h.cs, c) {
      SweepRemovesIff(h.cs, c);
    }
    forall c | c in h.subsOf ensures !Trapped(h.subsOf[c], sub) {
      SweepRemovesIff(h.subsOf[c], sub);
    }
  }
}
