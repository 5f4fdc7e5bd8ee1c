/** The subscription index of the event server: two maps that mirror each other, driven by commands. */
module PubSub {

  type Client = string
  type Message = string
  /** Queries are compared by identity, channels too. */
  datatype Query = Query(id: nat)
  datatype Chan = Chan(id: nat)

  datatype Command =
    | Sub(client: Client, query: Query, ch: Chan)
    | Unsub(client: Client, query: Query)
    | UnsubAll(client: Client)
    /** `matching`: the queries the message's tags match; `ready`: the channels able to take a message. */
    | Pub(msg: Message, matching: set<Query>, ready: set<Chan>)
    | Shutdown

  // ---- One map from subscriptions to channels -------------------------------------------

  type Subs = map<(Client, Query), Chan>

  /** What the index stands for, with the fate of every channel it was ever given. */
  datatype Registry = Registry(subs: Subs, closed: set<Chan>, leaked: set<Chan>,
                               inbox: map<Chan, seq<Message>>, down: bool)

  const EMPTY := Registry(map[], {}, {}, map[], false)

  function Channels(subs: Subs): set<Chan> {
    set s | s in subs :: subs[s]
  }

  function Of(subs: Subs, client: Client): (r: Subs)
    ensures forall s :: s in r <==> s in subs && s.0 == client
    ensures forall s :: s in r ==> r[s] == subs[s]
  {
    map s | s in subs && s.0 == client :: subs[s]
  }

  function Received(inbox: map<Chan, seq<Message>>, ch: Chan): seq<Message> {
    if ch in inbox then inbox[ch] else []
  }

  /** The channels a message reaches. */
  function Targets(subs: Subs, matching: set<Query>, ready: set<Chan>): set<Chan> {
    set s | s in subs && s.1 in matching && subs[s] in ready :: subs[s]
  }

  function Deliver(inbox: map<Chan, seq<Message>>, msg: Message, targets: set<Chan>): map<Chan, seq<Message>> {
    map ch | ch in inbox.Keys + targets :: if ch in targets then Received(inbox, ch) + [msg] else inbox[ch]
  }

  function Apply(r: Registry, cmd: Command): Registry {
    if r.down then r else
    match cmd
    case Sub(c, q, ch) =>
      r.(subs := r.subs[(c, q) := ch], leaked := r.leaked + if (c, q) in r.subs then {r.subs[(c, q)]} else {})
    case Unsub(c, q) =>
      if (c, q) in r.subs then r.(subs := r.subs - {(c, q)}, closed := r.closed + {r.subs[(c, q)]}) else r
    case UnsubAll(c) =>
      r.(subs := r.subs - Of(r.subs, c).Keys, closed := r.closed + Channels(Of(r.subs, c)))
    case Pub(msg, matching, ready) =>
      r.(inbox := Deliver(r.inbox, msg, Targets(r.subs, matching, ready)))
    case Shutdown =>
      r.(subs := map[], closed := r.closed + Channels(r.subs), down := true)
  }

  function Run(cmds: seq<Command>): Registry {
    if cmds == [] then EMPTY else Apply(Run(cmds[..|cmds| - 1]), cmds[|cmds| - 1])
  }

  /** Every subscription comes with a channel of its own. */
  ghost predicate FreshChannels(cmds: seq<Command>) {
    forall i, j :: 0 <= i < j < |cmds| && cmds[i].Sub? && cmds[j].Sub? ==> cmds[i].ch != cmds[j].ch
  }

  /** The channels subscribed with while the server was up. */
  function Opened(cmds: seq<Command>): set<Chan> {
    if cmds == [] then {} else
    var n := |cmds| - 1;
    Opened(cmds[..n]) + if cmds[n].Sub? && !Run(cmds[..n]).down then {cmds[n].ch} else {}
  }

  /** Registered channels are distinct and open, and every channel is accounted for once. */
  ghost predicate Sound(r: Registry, ever: set<Chan>) {
    && (forall s, t :: s in r.subs && t in r.subs && r.subs[s] == r.subs[t] ==> s == t)
    && Channels(r.subs) !! r.closed && Channels(r.subs) !! r.leaked && r.closed !! r.leaked
    && ever == Channels(r.subs) + r.closed + r.leaked
    && (r.down ==> r.subs == map[])
  }

  lemma {:induction false} ChannelsUpdate(subs: Subs, s: (Client, Query), ch: Chan)
    requires forall t, u :: t in subs && u in subs && subs[t] == subs[u] ==> t == u
    requires ch !in Channels(subs)
    ensures Channels(subs[s := ch]) == (Channels(subs) - if s in subs then {subs[s]} else {}) + {ch}
  {
    var after := Channels(subs[s := ch]);
    forall x ensures x in after <==> x in (Channels(subs) - if s in subs then {subs[s]} else {}) + {ch} {
      if x in Channels(subs) && !(s in subs && x == subs[s]) {
        var t :| t in subs && subs[t] == x;
        assert subs[s := ch][t] == x;
      }
      assert subs[s := ch][s] == ch;
    }
  }

  lemma {:induction false} ChannelsRemove(subs: Subs, gone: Subs)
    requires forall t, u :: t in subs && u in subs && subs[t] == subs[u] ==> t == u
    requires gone.Keys <= subs.Keys && forall s :: s in gone ==> gone[s] == subs[s]
    ensures Channels(subs - gone.Keys) == Channels(subs) - Channels(gone)
    ensures Channels(gone) <= Channels(subs)
  {
    forall x ensures x in Channels(subs - gone.Keys) <==> x in Channels(subs) && x !in Channels(gone) {
      if x in Channels(subs - gone.Keys) {
        var s :| s in subs - gone.Keys && subs[s] == x;
      }
      if x in Channels(subs) && x !in Channels(gone) {
        var s :| s in subs && subs[s] == x;
        assert forall t :: t in gone ==> gone[t] in Channels(gone);
        assert (subs - gone.Keys)[s] == x;
      }
    }
    forall x | x in Channels(gone) ensures x in Channels(subs) {
      var s :| s in gone && gone[s] == x;
      assert subs[s] in Channels(subs);
    }
  }

  /** Dropping part of the subscriptions and closing their channels. */
  lemma {:induction false} DropSound(r: Registry, ever: set<Chan>, gone: Subs)
    requires Sound(r, ever) && !r.down
    requires gone.Keys <= r.subs.Keys && forall s :: s in gone ==> gone[s] == r.subs[s]
    ensures Sound(r.(subs := r.subs - gone.Keys, closed := r.closed + Channels(gone)), ever)
  {
    ChannelsRemove(r.subs, gone);
  }

  lemma {:induction false} SubSound(r: Registry, ever: set<Chan>, s: (Client, Query), ch: Chan)
    requires Sound(r, ever) && !r.down && ch !in ever
    ensures Sound(r.(subs := r.subs[s := ch], leaked := r.leaked + if s in r.subs then {r.subs[s]} else {}), ever + {ch})
  {
    ChannelsUpdate(r.subs, s, ch);
    SubDistinct(r.subs, s, ch);
    assert s in r.subs ==> r.subs[s] in Channels(r.subs);
  }

  lemma {:induction false} ApplySound(r: Registry, ever: set<Chan>, cmd: Command)
    requires Sound(r, ever) && (cmd.Sub? && !r.down ==> cmd.ch !in ever)
    ensures Sound(Apply(r, cmd), ever + if cmd.Sub? && !r.down then {cmd.ch} else {})
  {
    hide Sound, Channels;
    assert ever + {} == ever;
    if !r.down {
      match cmd {
        case Sub(c, q, ch) => SubSound(r, ever, (c, q), ch);
        case Unsub(c, q) =>
          if (c, q) in r.subs {
            var gone: Subs := map[(c, q) := r.subs[(c, q)]];
            assert gone.Keys == {(c, q)};
            DropSound(r, ever, gone);
            OneChannel((c, q), r.subs[(c, q)]);
          }
        case UnsubAll(c) => DropSound(r, ever, Of(r.subs, c));
        case Pub(_, _, _) => PubSound(r, ever, Apply(r, cmd).inbox);
        case Shutdown => DownSound(r, ever);
      }
    }
  }

  lemma {:induction false} PubSound(r: Registry, ever: set<Chan>, inbox: map<Chan, seq<Message>>)
    requires Sound(r, ever)
    ensures Sound(r.(inbox := inbox), ever)
  {
  }

  lemma {:induction false} DownSound(r: Registry, ever: set<Chan>)
    requires Sound(r, ever) && !r.down
    ensures Sound(r.(subs := map[], closed := r.closed + Channels(r.subs), down := true), ever)
  {
    assert Channels(map[]) == {};
  }

  lemma {:induction false} OneChannel(s: (Client, Query), ch: Chan)
    ensures Channels(map[s := ch]) == {ch}
  {
    assert map[s := ch][s] in Channels(map[s := ch]);
  }

  lemma {:induction false} SubDistinct(subs: Subs, s: (Client, Query), ch: Chan)
    requires forall t, u :: t in subs && u in subs && subs[t] == subs[u] ==> t == u
    requires ch !in Channels(subs)
    ensures var after := subs[s := ch]; forall t, u :: t in after && u in after && after[t] == after[u] ==> t == u
  {
    assert forall t :: t in subs ==> subs[t] in Channels(subs);
  }

  lemma {:induction false} OpenedEarlier(cmds: seq<Command>, ch: Chan)
    requires ch in Opened(cmds)
    ensures exists i :: 0 <= i < |cmds| && cmds[i].Sub? && cmds[i].ch == ch
  {
    var n := |cmds| - 1;
    if ch in Opened(cmds[..n]) {
      OpenedEarlier(cmds[..n], ch);
      var i :| 0 <= i < n && cmds[..n][i].Sub? && cmds[..n][i].ch == ch;
      assert cmds[i].Sub? && cmds[i].ch == ch;
    } else {
      assert cmds[n].Sub? && cmds[n].ch == ch;
    }
  }

  lemma {:induction false} FreshLast(cmds: seq<Command>)
    requires FreshChannels(cmds) && cmds != []
    ensures cmds[|cmds| - 1].Sub? ==> cmds[|cmds| - 1].ch !in Opened(cmds[..|cmds| - 1])
  {
    var n := |cmds| - 1;
    assert forall i :: 0 <= i < n ==> cmds[..n][i] == cmds[i];
    if cmds[n].Sub? && cmds[n].ch in Opened(cmds[..n]) {
      OpenedEarlier(cmds[..n], cmds[n].ch);
    }
  }

  /** In every run registered channels stay distinct and open, and none is forgotten. */
  lemma {:induction false} RunSound(cmds: seq<Command>)
    requires FreshChannels(cmds)
    ensures Sound(Run(cmds), Opened(cmds))
  {
    hide Sound, Apply;
    if cmds == [] {
      EmptySound();
    } else {
      var n := |cmds| - 1;
      assert FreshChannels(cmds[..n]);
      RunSound(cmds[..n]);
      FreshLast(cmds);
      ApplySound(Run(cmds[..n]), Opened(cmds[..n]), cmds[n]);
    }
  }

  lemma {:induction false} EmptySound()
    ensures Sound(EMPTY, {})
  {
    assert Channels(map[]) == {};
  }

  // ---- The registry, read off the commands ------------------------------------------------

  predicate NoShutdown(cmds: seq<Command>) {
    forall i :: 0 <= i < |cmds| ==> !cmds[i].Shutdown?
  }

  /** The command gives up the subscription of `c` to `q`. */
  predicate Ends(cmd: Command, c: Client, q: Query) {
    match cmd
    case Unsub(c', q') => c' == c && q' == q
    case UnsubAll(c') => c' == c
    case Shutdown => true
    case _ => false
  }

  predicate SubscribesTo(cmd: Command, c: Client, q: Query) {
    cmd.Sub? && cmd.client == c && cmd.query == q
  }

  /** The command at `i` subscribes `c` to `q`, and nothing later gives that up. */
  predicate LiveFrom(cmds: seq<Command>, i: nat, c: Client, q: Query) {
    && i < |cmds| && SubscribesTo(cmds[i], c, q) && NoShutdown(cmds[..i])
    && forall j :: i < j < |cmds| ==> !Ends(cmds[j], c, q)
  }

  /** ... or replaces its channel. */
  predicate HeldFrom(cmds: seq<Command>, i: nat, c: Client, q: Query) {
    LiveFrom(cmds, i, c, q) && forall j :: i < j < |cmds| ==> !SubscribesTo(cmds[j], c, q)
  }

  lemma {:induction false} DownExactly(cmds: seq<Command>)
    ensures Run(cmds).down <==> !NoShutdown(cmds)
    ensures Run(cmds).down ==> Run(cmds).subs == map[]
  {
    if cmds != [] {
      var n := |cmds| - 1;
      DownExactly(cmds[..n]);
      assert NoShutdown(cmds) <==> NoShutdown(cmds[..n]) && !cmds[n].Shutdown?;
    }
  }

  lemma {:induction false} LiveEarlier(cmds: seq<Command>, i: nat, c: Client, q: Query)
    requires i + 1 < |cmds|
    ensures var n := |cmds| - 1;
            && (LiveFrom(cmds, i, c, q) <==> LiveFrom(cmds[..n], i, c, q) && !Ends(cmds[n], c, q))
            && (HeldFrom(cmds, i, c, q) <==>
                  HeldFrom(cmds[..n], i, c, q) && !Ends(cmds[n], c, q) && !SubscribesTo(cmds[n], c, q))
  {
    var n := |cmds| - 1;
    assert cmds[..n][..i] == cmds[..i];
    assert forall j :: 0 <= j < n ==> cmds[..n][j] == cmds[j];
  }

  ghost predicate Live(cmds: seq<Command>, c: Client, q: Query) {
    exists i: nat :: LiveFrom(cmds, i, c, q)
  }

  ghost predicate Held(cmds: seq<Command>, c: Client, q: Query, ch: Chan) {
    exists i: nat :: HeldFrom(cmds, i, c, q) && cmds[i].ch == ch
  }

  /** Nothing outlives a shutdown. */
  lemma {:induction false} LiveUp(cmds: seq<Command>, i: nat, c: Client, q: Query)
    requires LiveFrom(cmds, i, c, q)
    ensures NoShutdown(cmds)
  {
    forall j | 0 <= j < |cmds| ensures !cmds[j].Shutdown? {
      assert j < i ==> cmds[..i][j] == cmds[j];
    }
  }

  lemma {:induction false} LiveLast(cmds: seq<Command>, c: Client, q: Query)
    requires cmds != []
    ensures var n := |cmds| - 1;
            Live(cmds, c, q) <==>
            if SubscribesTo(cmds[n], c, q) then NoShutdown(cmds[..n]) else !Ends(cmds[n], c, q) && Live(cmds[..n], c, q)
  {
    hide LiveFrom, NoShutdown;
    var n := |cmds| - 1;
    LiveAt(cmds, c, q);
    if Live(cmds, c, q) {
      var i: nat :| LiveFrom(cmds, i, c, q);
      LiveAt(cmds, c, q);
      LiveWithin(cmds, i, c, q);
      if i < n {
        LiveEarlier(cmds, i, c, q);
        LiveUp(cmds[..n], i, c, q);
      }
    }
    if !SubscribesTo(cmds[n], c, q) && !Ends(cmds[n], c, q) && Live(cmds[..n], c, q) {
      var i: nat :| LiveFrom(cmds[..n], i, c, q);
      LiveWithin(cmds[..n], i, c, q);
      LiveEarlier(cmds, i, c, q);
    }
  }

  lemma {:induction false} LiveWithin(cmds: seq<Command>, i: nat, c: Client, q: Query)
    requires LiveFrom(cmds, i, c, q)
    ensures i < |cmds|
  {
  }

  lemma {:induction false} LiveAt(cmds: seq<Command>, c: Client, q: Query)
    requires cmds != []
    ensures var n := |cmds| - 1;
            && (LiveFrom(cmds, n, c, q) <==> SubscribesTo(cmds[n], c, q) && NoShutdown(cmds[..n]))
            && (HeldFrom(cmds, n, c, q) <==> SubscribesTo(cmds[n], c, q) && NoShutdown(cmds[..n]))
  {
  }

  lemma {:induction false} HeldLast(cmds: seq<Command>, c: Client, q: Query, ch: Chan)
    requires cmds != []
    ensures var n := |cmds| - 1;
            Held(cmds, c, q, ch) <==>
            if SubscribesTo(cmds[n], c, q) then NoShutdown(cmds[..n]) && cmds[n].ch == ch
            else !Ends(cmds[n], c, q) && Held(cmds[..n], c, q, ch)
  {
    hide NoShutdown, Ends;
    var n := |cmds| - 1;
    LiveAt(cmds, c, q);
    if Held(cmds, c, q, ch) {
      var i: nat :| HeldFrom(cmds, i, c, q) && cmds[i].ch == ch;
      LiveWithin(cmds, i, c, q);
      if i < n {
        LiveEarlier(cmds, i, c, q);
        assert cmds[..n][i].ch == ch;
      }
    }
    if !SubscribesTo(cmds[n], c, q) && !Ends(cmds[n], c, q) && Held(cmds[..n], c, q, ch) {
      var i: nat :| HeldFrom(cmds[..n], i, c, q) && cmds[..n][i].ch == ch;
      LiveWithin(cmds[..n], i, c, q);
      LiveEarlier(cmds, i, c, q);
      assert cmds[i].ch == ch;
    }
  }

  /** What one command does to one subscription. */
  lemma {:induction false} ApplyHeld(r: Registry, cmd: Command, c: Client, q: Query)
    requires !r.down
    ensures var subs := Apply(r, cmd).subs;
            && ((c, q) in subs <==> SubscribesTo(cmd, c, q) || (!Ends(cmd, c, q) && (c, q) in r.subs))
            && ((c, q) in subs ==> subs[(c, q)] == if SubscribesTo(cmd, c, q) then cmd.ch else r.subs[(c, q)])
  {
  }

  /** A subscription holds a channel exactly when the last command about it is the one that brought the channel. */
  lemma {:induction false} HeldExactly(cmds: seq<Command>, c: Client, q: Query, ch: Chan)
    ensures (c, q) in Run(cmds).subs && Run(cmds).subs[(c, q)] == ch <==> Held(cmds, c, q, ch)
  {
    hide Apply, Held, NoShutdown, Ends, SubscribesTo;
    if cmds == [] {
      NothingHeld(c, q, ch);
    } else {
      var n := |cmds| - 1;
      HeldExactly(cmds[..n], c, q, ch);
      DownExactly(cmds[..n]);
      HeldLast(cmds, c, q, ch);
      if Run(cmds[..n]).down {
        StaysDown(cmds, n);
      } else {
        ApplyHeld(Run(cmds[..n]), cmds[n], c, q);
      }
    }
  }

  lemma {:induction false} NothingHeld(c: Client, q: Query, ch: Chan)
    ensures !Held([], c, q, ch) && !Live([], c, q)
  {
  }

  /** Registered exactly when some subscribing command was not undone. */
  lemma {:induction false} LiveExactly(cmds: seq<Command>, c: Client, q: Query)
    ensures (c, q) in Run(cmds).subs <==> Live(cmds, c, q)
  {
    hide Apply, Live, NoShutdown, Ends, SubscribesTo;
    if cmds == [] {
      NothingHeld(c, q, Chan(0));
    } else {
      var n := |cmds| - 1;
      LiveExactly(cmds[..n], c, q);
      DownExactly(cmds[..n]);
      LiveLast(cmds, c, q);
      if Run(cmds[..n]).down {
        StaysDown(cmds, n);
      } else {
        ApplyHeld(Run(cmds[..n]), cmds[n], c, q);
      }
    }
  }

  /** The command at `j` subscribes while the subscription made at `i` is still in force. */
  predicate Again(cmds: seq<Command>, i: nat, j: nat) {
    i < j < |cmds| && cmds[j].Sub? && NoShutdown(cmds[..j]) && LiveFrom(cmds[..j], i, cmds[j].client, cmds[j].query)
  }

  /** No client subscribes to a query again without having given it up in between. */
  ghost predicate NeverResubscribed(cmds: seq<Command>) {
    forall i: nat, j: nat :: !Again(cmds, i, j)
  }

  lemma {:induction false} AgainEarlier(cmds: seq<Command>, i: nat, j: nat)
    requires j + 1 < |cmds|
    ensures Again(cmds, i, j) <==> Again(cmds[..|cmds| - 1], i, j)
  {
    assert cmds[..|cmds| - 1][..j] == cmds[..j];
  }

  /** No channel is lost exactly when no subscription is made again while in force. */
  lemma {:induction false} LeaksExactly(cmds: seq<Command>)
    ensures Run(cmds).leaked == {} <==> NeverResubscribed(cmds)
  {
    if cmds != [] {
      var n := |cmds| - 1;
      LeaksExactly(cmds[..n]);
      DownExactly(cmds[..n]);
      if cmds[n].Sub? {
        LiveExactly(cmds[..n], cmds[n].client, cmds[n].query);
      }
      var before := Run(cmds[..n]);
      assert Run(cmds).leaked == {} <==>
          before.leaked == {} && !(cmds[n].Sub? && !before.down && (cmds[n].client, cmds[n].query) in before.subs);
      AgainLast(cmds);
    }
  }

  lemma {:induction false} AgainLast(cmds: seq<Command>)
    requires cmds != []
    ensures var n := |cmds| - 1;
            NeverResubscribed(cmds) <==>
            NeverResubscribed(cmds[..n]) && !(cmds[n].Sub? && NoShutdown(cmds[..n])
              && Live(cmds[..n], cmds[n].client, cmds[n].query))
  {
    var n := |cmds| - 1;
    forall i: nat, j: nat | j < n ensures Again(cmds, i, j) <==> Again(cmds[..n], i, j) {
      AgainEarlier(cmds, i, j);
    }
    forall i: nat ensures Again(cmds, i, n) <==>
        cmds[n].Sub? && NoShutdown(cmds[..n]) && LiveFrom(cmds[..n], i, cmds[n].client, cmds[n].query) {
    }
    if !NeverResubscribed(cmds[..n]) {
      var i: nat, j: nat :| Again(cmds[..n], i, j);
      assert Again(cmds, i, j);
    }
    if !NeverResubscribed(cmds) {
      var i: nat, j: nat :| Again(cmds, i, j);
      assert j < n ==> Again(cmds[..n], i, j);
    }
  }

  lemma {:induction false} OpenedAll(cmds: seq<Command>)
    requires NoShutdown(cmds)
    ensures forall ch :: ch in Opened(cmds) <==> exists i :: 0 <= i < |cmds| && cmds[i].Sub? && cmds[i].ch == ch
  {
    if cmds != [] {
      var n := |cmds| - 1;
      DownExactly(cmds[..n]);
      OpenedAll(cmds[..n]);
      forall ch ensures ch in Opened(cmds) <==> exists i :: 0 <= i < |cmds| && cmds[i].Sub? && cmds[i].ch == ch {
        if ch in Opened(cmds) {
          OpenedEarlier(cmds, ch);
        }
        if exists i :: 0 <= i < |cmds| && cmds[i].Sub? && cmds[i].ch == ch {
          var i :| 0 <= i < |cmds| && cmds[i].Sub? && cmds[i].ch == ch;
          assert i < n ==> cmds[..n][i].Sub? && cmds[..n][i].ch == ch;
        }
      }
    }
  }

  /**
    Shutting down closes every channel ever subscribed with, exactly when no client
    subscribed to the same query again while subscribed: the earlier channel is lost.
   */
  lemma {:induction false} ShutdownClosesAll(cmds: seq<Command>)
    requires FreshChannels(cmds) && NoShutdown(cmds)
    ensures var r := Run(cmds + [Shutdown]);
            && r.subs == map[]
            && ((forall i :: 0 <= i < |cmds| && cmds[i].Sub? ==> cmds[i].ch in r.closed) <==> NeverResubscribed(cmds))
  {
    hide NeverResubscribed;
    RunSound(cmds);
    LeaksExactly(cmds);
    DownExactly(cmds);
    OpenedAll(cmds);
    assert (cmds + [Shutdown])[..|cmds|] == cmds;
    var r := Run(cmds + [Shutdown]);
    if Run(cmds).leaked != {} {
      var ch :| ch in Run(cmds).leaked;
      var i :| 0 <= i < |cmds| && cmds[i].Sub? && cmds[i].ch == ch;
      assert ch !in r.closed;
    }
  }

  /** The channel brought at `i` is the one in force until the command at `j` gives the subscription up. */
  ghost predicate ClosedBy(cmds: seq<Command>, i: nat, j: nat, ch: Chan) {
    && i < j < |cmds| && cmds[i].Sub? && cmds[i].ch == ch
    && HeldFrom(cmds[..j], i, cmds[i].client, cmds[i].query) && Ends(cmds[j], cmds[i].client, cmds[i].query)
  }

  /** ... or brings another one in its place. */
  ghost predicate ReplacedBy(cmds: seq<Command>, i: nat, j: nat, ch: Chan) {
    && i < j < |cmds| && cmds[i].Sub? && cmds[i].ch == ch
    && HeldFrom(cmds[..j], i, cmds[i].client, cmds[i].query) && SubscribesTo(cmds[j], cmds[i].client, cmds[i].query)
  }

  /** What one command adds to the channels closed and lost. */
  lemma {:induction false} ApplyEnds(r: Registry, cmd: Command, ch: Chan)
    requires !r.down
    ensures ch in Apply(r, cmd).closed <==> ch in r.closed || exists s :: s in r.subs && r.subs[s] == ch && Ends(cmd, s.0, s.1)
    ensures ch in Apply(r, cmd).leaked <==>
            ch in r.leaked || exists s :: s in r.subs && r.subs[s] == ch && SubscribesTo(cmd, s.0, s.1)
  {
    match cmd {
      case Sub(c, q, _) =>
        if s :| s in r.subs && r.subs[s] == ch && SubscribesTo(cmd, s.0, s.1) { assert s == (c, q); }
        if (c, q) in r.subs { assert SubscribesTo(cmd, (c, q).0, (c, q).1); }
      case Unsub(c, q) =>
        if s :| s in r.subs && r.subs[s] == ch && Ends(cmd, s.0, s.1) { assert s == (c, q); }
        if (c, q) in r.subs { assert Ends(cmd, (c, q).0, (c, q).1); }
      case _ =>
    }
  }

  /** A channel is closed by a command in a run exactly when it was held and the command gives it up. */
  lemma {:induction false} HeldThenEnds(cmds: seq<Command>, cmd: Command, ch: Chan)
    ensures (exists s :: s in Run(cmds).subs && Run(cmds).subs[s] == ch && Ends(cmd, s.0, s.1))
            <==> exists i: nat :: ClosedBy(cmds + [cmd], i, |cmds|, ch)
    ensures (exists s :: s in Run(cmds).subs && Run(cmds).subs[s] == ch && SubscribesTo(cmd, s.0, s.1))
            <==> exists i: nat :: ReplacedBy(cmds + [cmd], i, |cmds|, ch)
  {
    hide Run, Ends, SubscribesTo, HeldFrom;
    var all, n, subs := cmds + [cmd], |cmds|, Run(cmds).subs;
    assert all[..n] == cmds && all[n] == cmd;
    if s :| s in subs && subs[s] == ch && Ends(cmd, s.0, s.1) {
      var i := HeldCommand(cmds, s, ch);
      assert ClosedBy(all, i, n, ch);
    }
    if s :| s in subs && subs[s] == ch && SubscribesTo(cmd, s.0, s.1) {
      var i := HeldCommand(cmds, s, ch);
      assert ReplacedBy(all, i, n, ch);
    }
    forall i: nat | ClosedBy(all, i, n, ch) || ReplacedBy(all, i, n, ch)
      ensures var s := (all[i].client, all[i].query); s in subs && subs[s] == ch
    {
      HeldChannel(cmds, i);
    }
    if i: nat :| ClosedBy(all, i, n, ch) {
      var s := (all[i].client, all[i].query);
      assert Ends(cmd, s.0, s.1);
    }
    if i: nat :| ReplacedBy(all, i, n, ch) {
      var s := (all[i].client, all[i].query);
      assert SubscribesTo(cmd, s.0, s.1);
    }
  }

  lemma {:induction false} HeldCommand(cmds: seq<Command>, s: (Client, Query), ch: Chan) returns (i: nat)
    requires s in Run(cmds).subs && Run(cmds).subs[s] == ch
    ensures i < |cmds| && cmds[i].Sub? && cmds[i].ch == ch && (cmds[i].client, cmds[i].query) == s
    ensures HeldFrom(cmds, i, cmds[i].client, cmds[i].query)
  {
    hide Run;
    HeldExactly(cmds, s.0, s.1, ch);
    i :| HeldFrom(cmds, i, s.0, s.1) && cmds[i].ch == ch;
  }

  lemma {:induction false} HeldChannel(cmds: seq<Command>, i: nat)
    requires i < |cmds| && cmds[i].Sub? && HeldFrom(cmds, i, cmds[i].client, cmds[i].query)
    ensures var s := (cmds[i].client, cmds[i].query); s in Run(cmds).subs && Run(cmds).subs[s] == cmds[i].ch
  {
    hide Run;
    HeldExactly(cmds, cmds[i].client, cmds[i].query, cmds[i].ch);
  }

  lemma {:induction false} EndsEarlier(cmds: seq<Command>, i: nat, j: nat, ch: Chan)
    requires cmds != [] && j < |cmds| - 1
    ensures var before := cmds[..|cmds| - 1];
            && (ClosedBy(cmds, i, j, ch) <==> ClosedBy(before, i, j, ch))
            && (ReplacedBy(cmds, i, j, ch) <==> ReplacedBy(before, i, j, ch))
  {
    hide HeldFrom, Ends, SubscribesTo;
    assert cmds[..|cmds| - 1][..j] == cmds[..j];
  }

  /** Which channels are closed, and which are lost, read off the commands. */
  lemma {:induction false} ClosedExactly(cmds: seq<Command>, ch: Chan)
    ensures ch in Run(cmds).closed <==> exists i: nat, j: nat :: ClosedBy(cmds, i, j, ch)
    ensures ch in Run(cmds).leaked <==> exists i: nat, j: nat :: ReplacedBy(cmds, i, j, ch)
  {
    if cmds == [] {
      NothingEnds(ch);
    } else {
      hide Apply, ClosedBy, ReplacedBy, Ends, SubscribesTo;
      var n := |cmds| - 1;
      var before := cmds[..n];
      ClosedExactly(before, ch);
      assert cmds == before + [cmds[n]];
      HeldThenEnds(before, cmds[n], ch);
      forall i: nat, j: nat ensures j != n ==> (ClosedBy(cmds, i, j, ch) <==> ClosedBy(before, i, j, ch))
                            ensures j != n ==> (ReplacedBy(cmds, i, j, ch) <==> ReplacedBy(before, i, j, ch))
                            ensures !ClosedBy(before, i, n, ch) && !ReplacedBy(before, i, n, ch) {
        EndsWithin(cmds, i, j, ch);
        EndsWithin(before, i, j, ch);
        EndsWithin(before, i, n, ch);
        if j < n { EndsEarlier(cmds, i, j, ch); }
      }
      if Run(before).down {
        DownExactly(before);
        StaysDown(cmds, n);
      } else {
        ApplyEnds(Run(before), cmds[n], ch);
      }
    }
  }

  lemma {:induction false} EndsWithin(cmds: seq<Command>, i: nat, j: nat, ch: Chan)
    ensures ClosedBy(cmds, i, j, ch) || ReplacedBy(cmds, i, j, ch) ==> j < |cmds|
  {
  }

  lemma {:induction false} NothingEnds(ch: Chan)
    ensures ch !in Run([]).closed && ch !in Run([]).leaked
    ensures forall i: nat, j: nat :: !ClosedBy([], i, j, ch) && !ReplacedBy([], i, j, ch)
  {
  }

  // ---- What a channel receives --------------------------------------------------------------

  /** The message published at the end reaches the channel: it is held under a matching query and has room. */
  ghost predicate Reaches(cmds: seq<Command>, pub: Command, ch: Chan)
    requires pub.Pub?
  {
    NoShutdown(cmds) && ch in pub.ready &&
    exists i: nat :: i < |cmds| && cmds[i].Sub? && cmds[i].ch == ch && cmds[i].query in pub.matching
      && HeldFrom(cmds, i, cmds[i].client, cmds[i].query)
  }

  /** The messages the commands send to a channel, in order. */
  ghost function Delivered(cmds: seq<Command>, ch: Chan): seq<Message> {
    if cmds == [] then [] else
    var n := |cmds| - 1;
    Delivered(cmds[..n], ch) + if cmds[n].Pub? && Reaches(cmds[..n], cmds[n], ch) then [cmds[n].msg] else []
  }

  /** In every run a channel has received exactly the messages published while it was held under a matching query. */
  lemma {:induction false} InboxExact(cmds: seq<Command>, ch: Chan)
    ensures Received(Run(cmds).inbox, ch) == Delivered(cmds, ch)
  {
    if cmds != [] {
      var n := |cmds| - 1;
      InboxExact(cmds[..n], ch);
      DownExactly(cmds[..n]);
      if cmds[n].Pub? && !Run(cmds[..n]).down {
        ReachesExactly(cmds[..n], cmds[n], ch);
        DeliveredTo(Run(cmds[..n]), cmds[n], ch);
      }
    }
  }

  lemma {:induction false} DeliveredTo(r: Registry, pub: Command, ch: Chan)
    requires pub.Pub? && !r.down
    ensures Received(Apply(r, pub).inbox, ch)
            == Received(r.inbox, ch) + if ch in Targets(r.subs, pub.matching, pub.ready) then [pub.msg] else []
  {
    assert Received(r.inbox, ch) + [] == Received(r.inbox, ch);
  }

  lemma {:induction false} ReachesExactly(cmds: seq<Command>, pub: Command, ch: Chan)
    requires pub.Pub? && NoShutdown(cmds)
    ensures Reaches(cmds, pub, ch) <==> ch in Targets(Run(cmds).subs, pub.matching, pub.ready)
  {
    var subs := Run(cmds).subs;
    if Reaches(cmds, pub, ch) {
      var i: nat :| i < |cmds| && cmds[i].Sub? && cmds[i].ch == ch && cmds[i].query in pub.matching
        && HeldFrom(cmds, i, cmds[i].client, cmds[i].query);
      HeldExactly(cmds, cmds[i].client, cmds[i].query, ch);
      assert subs[(cmds[i].client, cmds[i].query)] == ch;
    }
    if ch in Targets(subs, pub.matching, pub.ready) {
      var s :| s in subs && s.1 in pub.matching && subs[s] in pub.ready && subs[s] == ch;
      HeldExactly(cmds, s.0, s.1, ch);
      var i: nat :| HeldFrom(cmds, i, s.0, s.1) && cmds[i].ch == ch;
      assert HeldFrom(cmds, i, cmds[i].client, cmds[i].query);
    }
  }

  // ---- The two maps ---------------------------------------------------------------------

  type ByQuery = map<Query, map<Client, Chan>>
  type ByClient = map<Client, set<Query>>

  predicate InQuery(queries: ByQuery, s: (Client, Query)) {
    s.1 in queries && s.0 in queries[s.1]
  }

  predicate InClient(clients: ByClient, s: (Client, Query)) {
    s.0 in clients && s.1 in clients[s.0]
  }

  /** `queries` files each subscription under its query, and holds nothing else. */
  ghost predicate FiledByQuery(queries: ByQuery, subs: Subs) {
    && (forall q :: q in queries ==> queries[q] != map[])
    && (forall s :: s in subs <==> InQuery(queries, s))
    && (forall s :: s in subs ==> queries[s.1][s.0] == subs[s])
  }

  /** `clients` files each subscription under its client, and holds nothing else. */
  ghost predicate FiledByClient(clients: ByClient, subs: Subs) {
    && (forall c :: c in clients ==> clients[c] != {})
    && (forall s :: s in subs <==> InClient(clients, s))
  }

  function AddToQuery(queries: ByQuery, q: Query, c: Client, ch: Chan): ByQuery {
    queries[q := (if q in queries then queries[q] else map[])[c := ch]]
  }

  function AddToClient(clients: ByClient, c: Client, q: Query): ByClient {
    clients[c := (if c in clients then clients[c] else {}) + {q}]
  }

  function DropFromQuery(queries: ByQuery, q: Query, c: Client): ByQuery
    requires q in queries
  {
    var inner := queries[q] - {c};
    if inner == map[] then queries - {q} else queries[q := inner]
  }

  function DropFromClient(clients: ByClient, c: Client, q: Query): ByClient
    requires c in clients
  {
    var inner := clients[c] - {q};
    if inner == {} then clients - {c} else clients[c := inner]
  }

  lemma {:induction false} AddFiledByQuery(queries: ByQuery, subs: Subs, c: Client, q: Query, ch: Chan)
    requires FiledByQuery(queries, subs)
    ensures FiledByQuery(AddToQuery(queries, q, c, ch), subs[(c, q) := ch])
  {
    var after := AddToQuery(queries, q, c, ch);
    assert c in after[q];
    forall s ensures s in subs[(c, q) := ch] <==> InQuery(after, s) {
      assert s in subs <==> InQuery(queries, s);
    }
  }

  lemma {:induction false} AddFiledByClient(clients: ByClient, subs: Subs, c: Client, q: Query, ch: Chan)
    requires FiledByClient(clients, subs)
    ensures FiledByClient(AddToClient(clients, c, q), subs[(c, q) := ch])
  {
    var after := AddToClient(clients, c, q);
    assert q in after[c];
    forall s ensures s in subs[(c, q) := ch] <==> InClient(after, s) {
      assert s in subs <==> InClient(clients, s);
    }
  }

  lemma {:induction false} DropFiledByQuery(queries: ByQuery, subs: Subs, c: Client, q: Query)
    requires FiledByQuery(queries, subs) && (c, q) in subs
    ensures q in queries && FiledByQuery(DropFromQuery(queries, q, c), subs - {(c, q)})
  {
    assert InQuery(queries, (c, q));
    var after := DropFromQuery(queries, q, c);
    forall s ensures s in subs - {(c, q)} <==> InQuery(after, s) {
      assert s in subs <==> InQuery(queries, s);
      assert s.1 == q && s.0 != c && s.0 in queries[q] ==> s.0 in queries[q] - {c};
    }
  }

  lemma {:induction false} DropFiledByClient(clients: ByClient, subs: Subs, c: Client, q: Query)
    requires FiledByClient(clients, subs) && (c, q) in subs
    ensures c in clients && FiledByClient(DropFromClient(clients, c, q), subs - {(c, q)})
  {
    assert InClient(clients, (c, q));
    var after := DropFromClient(clients, c, q);
    forall s ensures s in subs - {(c, q)} <==> InClient(after, s) {
      assert s in subs <==> InClient(clients, s);
      assert s.0 == c && s.1 != q && s.1 in clients[c] ==> s.1 in clients[c] - {q};
    }
  }

  lemma {:induction false} RegisteredOpen(r: Registry, ever: set<Chan>, s: (Client, Query))
    requires Sound(r, ever) && s in r.subs
    ensures r.subs[s] !in r.closed
  {
    assert r.subs[s] in Channels(r.subs);
  }

  /** The two maps file the subscriptions of `r`, whose channels are sound. */
  ghost predicate Indexed(queries: ByQuery, clients: ByClient, closed: set<Chan>, inbox: map<Chan, seq<Message>>,
                          r: Registry, ever: set<Chan>) {
    && FiledByQuery(queries, r.subs) && FiledByClient(clients, r.subs)
    && closed == r.closed && inbox == r.inbox && Sound(r, ever)
  }

  lemma {:induction false} AddIndexed(queries: ByQuery, clients: ByClient, r: Registry, ever: set<Chan>,
                                      c: Client, q: Query, ch: Chan)
    requires Indexed(queries, clients, r.closed, r.inbox, r, ever) && !r.down && ch !in ever
    ensures Indexed(AddToQuery(queries, q, c, ch), AddToClient(clients, c, q), r.closed, r.inbox,
                    Apply(r, Sub(c, q, ch)), ever + {ch})
  {
    hide Sound, FiledByQuery, FiledByClient;
    AddFiledByQuery(queries, r.subs, c, q, ch);
    AddFiledByClient(clients, r.subs, c, q, ch);
    ApplySound(r, ever, Sub(c, q, ch));
  }

  lemma {:induction false} RemoveIndexed(queries: ByQuery, clients: ByClient, r: Registry, ever: set<Chan>,
                                         c: Client, q: Query)
    requires Indexed(queries, clients, r.closed, r.inbox, r, ever) && !r.down && InQuery(queries, (c, q))
    ensures queries[q][c] !in r.closed && c in clients
    ensures Indexed(DropFromQuery(queries, q, c), DropFromClient(clients, c, q), r.closed + {queries[q][c]}, r.inbox,
                    Apply(r, Unsub(c, q)), ever)
  {
    hide Sound, DropFromQuery, DropFromClient;
    assert (c, q) in r.subs;
    RegisteredOpen(r, ever, (c, q));
    DropFiledByQuery(queries, r.subs, c, q);
    DropFiledByClient(clients, r.subs, c, q);
    ApplySound(r, ever, Unsub(c, q));
    assert ever + {} == ever;
  }

  // ---- Dropping a client, shutting down and sending, one subscription at a time ---------

  lemma {:induction false} ChannelsSplit(subs: Subs, gone: Subs)
    requires gone.Keys <= subs.Keys && forall s :: s in gone ==> gone[s] == subs[s]
    ensures Channels(gone) + Channels(subs - gone.Keys) == Channels(subs)
  {
    forall x ensures x in Channels(subs) <==> x in Channels(gone) || x in Channels(subs - gone.Keys) {
      if x in Channels(subs) {
        var s :| s in subs && subs[s] == x;
        assert if s in gone then gone[s] == x else (subs - gone.Keys)[s] == x;
      }
      assert forall s :: s in gone ==> subs[s] in Channels(subs);
    }
  }

  /** Giving up one subscription first makes no difference to giving up all of a client's. */
  lemma {:induction false} UnsubThenAll(r: Registry, c: Client, q: Query)
    requires !r.down && (c, q) in r.subs
    ensures Apply(Apply(r, Unsub(c, q)), UnsubAll(c)) == Apply(r, UnsubAll(c))
  {
    hide Channels;
    var one: Subs := map[(c, q) := r.subs[(c, q)]];
    var all, rest := Of(r.subs, c), Of(r.subs - {(c, q)}, c);
    OneChannel((c, q), r.subs[(c, q)]);
    assert rest == all - one.Keys;
    ChannelsSplit(all, one);
    assert r.subs - {(c, q)} - rest.Keys == r.subs - all.Keys;
  }

  /** Giving up a client first makes no difference to shutting down. */
  lemma {:induction false} AllThenShutdown(r: Registry, c: Client)
    requires !r.down
    ensures Apply(Apply(r, UnsubAll(c)), Shutdown) == Apply(r, Shutdown)
  {
    ChannelsSplit(r.subs, Of(r.subs, c));
  }

  /** One client given up as far as the queries are concerned, with `rest` of its queries to go. */
  ghost predicate Leaving(queries: ByQuery, clients: ByClient, c: Client, rest: set<Query>, subs: Subs) {
    && FiledByQuery(queries, subs)
    && (forall q :: q in rest <==> (c, q) in subs)
    && (forall c :: c in clients ==> clients[c] != {})
    && (forall s: (Client, Query) :: s.0 != c ==> (s in subs <==> InClient(clients, s)))
  }

  lemma {:induction false} LeavingStart(queries: ByQuery, clients: ByClient, c: Client, subs: Subs)
    requires FiledByQuery(queries, subs) && FiledByClient(clients, subs) && c in clients
    ensures Leaving(queries, clients, c, clients[c], subs)
  {
    forall q ensures q in clients[c] <==> (c, q) in subs {
      assert (c, q) in subs <==> InClient(clients, (c, q));
    }
  }

  lemma {:induction false} LeavingStep(queries: ByQuery, clients: ByClient, c: Client, rest: set<Query>, subs: Subs, q: Query)
    requires Leaving(queries, clients, c, rest, subs) && q in rest
    ensures (c, q) in subs && q in queries && c in queries[q] && queries[q][c] == subs[(c, q)]
    ensures Leaving(DropFromQuery(queries, q, c), clients, c, rest - {q}, subs - {(c, q)})
  {
    DropFiledByQuery(queries, subs, c, q);
  }

  lemma {:induction false} UnsubCloses(r: Registry, c: Client, q: Query)
    requires !r.down && (c, q) in r.subs
    ensures Apply(r, Unsub(c, q)) == r.(subs := r.subs - {(c, q)}, closed := r.closed + {r.subs[(c, q)]})
  {
  }

  lemma {:induction false} LeavingDone(queries: ByQuery, clients: ByClient, c: Client, r: Registry)
    requires Leaving(queries, clients, c, {}, r.subs) && !r.down
    ensures FiledByClient(clients - {c}, r.subs) && Apply(r, UnsubAll(c)) == r
  {
    forall s ensures s in r.subs <==> InClient(clients - {c}, s) {
      assert s.0 == c ==> s == (c, s.1);
    }
    assert Of(r.subs, c) == map[];
    assert Channels(map[]) == {};
  }

  lemma {:induction false} LeavingFiled(queries: ByQuery, clients: ByClient, c: Client, subs: Subs)
    requires Leaving(queries, clients, c, {}, subs)
    ensures FiledByQuery(queries, subs)
  {
  }

  lemma {:induction false} AbsentClient(clients: ByClient, r: Registry, c: Client)
    requires FiledByClient(clients, r.subs) && c !in clients && !r.down
    ensures Apply(r, UnsubAll(c)) == r && clients - {c} == clients
  {
    assert forall s :: s in r.subs ==> InClient(clients, s);
    assert Of(r.subs, c) == map[];
    assert Channels(map[]) == {};
  }

  lemma {:induction false} UpAfter(r: Registry, cmd: Command)
    requires !r.down && !cmd.Shutdown?
    ensures !Apply(r, cmd).down
  {
  }

  lemma {:induction false} StoppedEmpty(queries: ByQuery, clients: ByClient, r: Registry, ever: set<Chan>)
    requires Indexed(queries, clients, r.closed, r.inbox, r, ever) && clients.Keys == {} && !r.down
    ensures queries == map[] && clients == map[]
    ensures Indexed(queries, clients, r.closed, r.inbox, Apply(r, Shutdown), ever)
  {
    assert forall s :: s in r.subs ==> InClient(clients, s);
    assert r.subs == map[] && Channels(map[]) == {};
    forall q ensures q !in queries {
      if q in queries {
        var c :| c in queries[q];
        assert InQuery(queries, (c, q));
      }
    }
    ApplySound(r, ever, Shutdown);
  }

  /** The channels reached once the subscriptions in `done` have been served. */
  function Sent(subs: Subs, matching: set<Query>, ready: set<Chan>, done: set<(Client, Query)>): set<Chan> {
    set s | s in done && s in subs && s.1 in matching && subs[s] in ready :: subs[s]
  }

  lemma {:induction false} SentStep(r: Registry, ever: set<Chan>, matching: set<Query>, ready: set<Chan>,
                                    done: set<(Client, Query)>, s: (Client, Query))
    requires Sound(r, ever) && s in r.subs && s !in done && s.1 in matching
    ensures r.subs[s] !in Sent(r.subs, matching, ready, done)
    ensures Sent(r.subs, matching, ready, done + {s})
            == Sent(r.subs, matching, ready, done) + if r.subs[s] in ready then {r.subs[s]} else {}
  {
    var ch := r.subs[s];
    assert s in done + {s};
    forall x ensures x in Sent(r.subs, matching, ready, done + {s})
        <==> x in Sent(r.subs, matching, ready, done) || (x == ch && ch in ready) {
      if x in Sent(r.subs, matching, ready, done) {
        var t :| t in done && t in r.subs && t.1 in matching && r.subs[t] in ready && r.subs[t] == x;
        assert t in done + {s};
      }
    }
  }

  lemma {:induction false} SentSkips(subs: Subs, matching: set<Query>, ready: set<Chan>,
                                     done: set<(Client, Query)>, more: set<(Client, Query)>)
    requires forall s :: s in more ==> s.1 !in matching
    ensures Sent(subs, matching, ready, done + more) == Sent(subs, matching, ready, done)
  {
    forall x | x in Sent(subs, matching, ready, done) ensures x in Sent(subs, matching, ready, done + more) {
      var t :| t in done && t in subs && t.1 in matching && subs[t] in ready && subs[t] == x;
      assert t in done + more;
    }
  }

  lemma {:induction false} SentAll(subs: Subs, matching: set<Query>, ready: set<Chan>)
    ensures Sent(subs, matching, ready, subs.Keys) == Targets(subs, matching, ready)
  {
  }

  lemma {:induction false} DeliverStep(inbox: map<Chan, seq<Message>>, msg: Message, sent: set<Chan>, ch: Chan)
    requires ch !in sent
    ensures var now := Deliver(inbox, msg, sent);
            now[ch := Received(now, ch) + [msg]] == Deliver(inbox, msg, sent + {ch})
  {
  }

  function Under(subs: Subs, q: Query): set<(Client, Query)> {
    set s | s in subs && s.1 == q
  }

  lemma {:induction false} NothingSent(subs: Subs, inbox: map<Chan, seq<Message>>, msg: Message,
                                       matching: set<Query>, ready: set<Chan>)
    ensures Deliver(inbox, msg, Sent(subs, matching, ready, {})) == inbox
  {
  }

  /** Commands after a shutdown are never read. */
  lemma {:induction false} StaysDown(cmds: seq<Command>, n: nat)
    requires n <= |cmds| && Run(cmds[..n]).down
    ensures Run(cmds) == Run(cmds[..n]) && Opened(cmds) == Opened(cmds[..n])
    decreases |cmds|
  {
    if n < |cmds| {
      var m := |cmds| - 1;
      assert cmds[..m][..n] == cmds[..n];
      StaysDown(cmds[..m], n);
    } else {
      assert cmds[..n] == cmds;
    }
  }

  class SubscriptionIndex {
    var queries: ByQuery
    var clients: ByClient
    /** Channels closed so far; closing one again, or sending to it, would panic. */
    var closed: set<Chan>
    var inbox: map<Chan, seq<Message>>

    ghost var registry: Registry
    ghost var ever: set<Chan>

    ghost predicate Valid()
      reads this
    {
      Indexed(queries, clients, closed, inbox, registry, ever)
    }

    constructor ()
      ensures Valid() && registry == EMPTY && ever == {}
    {
      queries, clients, closed, inbox := map[], map[], {}, map[];
      registry, ever := EMPTY, {};
      EmptySound();
    }

    method Close(ch: Chan)
      requires ch !in closed
      modifies this`closed
      ensures closed == old(closed) + {ch}
    {
      closed := closed + {ch};
    }

    method FileByQuery(q: Query, c: Client, ch: Chan)
      modifies this`queries
      ensures queries == AddToQuery(old(queries), q, c, ch)
    {
      if q !in queries {
        queries := queries[q := map[]];
      }
      queries := queries[q := queries[q][c := ch]];
    }

    method FileByClient(c: Client, q: Query)
      modifies this`clients
      ensures clients == AddToClient(old(clients), c, q)
    {
      if c !in clients {
        clients := clients[c := {}];
      }
      clients := clients[c := clients[c] + {q}];
    }

    method UnfileByQuery(q: Query, c: Client)
      requires q in queries
      modifies this`queries
      ensures queries == DropFromQuery(old(queries), q, c)
    {
      queries := queries[q := queries[q] - {c}];
      if queries[q] == map[] {
        queries := queries - {q};
      }
    }

    method UnfileByClient(c: Client, q: Query)
      requires c in clients
      modifies this`clients
      ensures clients == DropFromClient(old(clients), c, q)
    {
      clients := clients[c := clients[c] - {q}];
      if clients[c] == {} {
        clients := clients - {c};
      }
    }

    method Add(c: Client, q: Query, ch: Chan)
      requires Valid() && !registry.down && ch !in ever
      modifies this
      ensures Valid() && registry == Apply(old(registry), Sub(c, q, ch)) && ever == old(ever) + {ch}
    {
      hide Sound, FiledByQuery, FiledByClient, AddToQuery, AddToClient, Apply;
      AddIndexed(queries, clients, registry, ever, c, q, ch);
      FileByQuery(q, c, ch);
      FileByClient(c, q);
      registry, ever := Apply(registry, Sub(c, q, ch)), ever + {ch};
    }

    method Remove(c: Client, q: Query)
      requires Valid() && !registry.down
      modifies this
      ensures Valid() && registry == Apply(old(registry), Unsub(c, q)) && ever == old(ever)
    {
      hide Sound, DropFromQuery, DropFromClient;
      if q !in queries || c !in queries[q] {
        assert !InQuery(queries, (c, q));
        return;
      }
      RemoveIndexed(queries, clients, registry, ever, c, q);
      Close(queries[q][c]);
      registry := Apply(registry, Unsub(c, q));
      UnfileByClient(c, q);
      UnfileByQuery(q, c);
    }

    method RemoveAll(c: Client)
      requires Valid() && !registry.down
      modifies this
      ensures Valid() && registry == Apply(old(registry), UnsubAll(c)) && ever == old(ever)
      ensures clients == old(clients) - {c}
    {
      hide Sound, Apply, FiledByQuery, FiledByClient, Leaving, DropFromQuery;
      if c !in clients {
        AbsentClient(clients, registry, c);
        return;
      }
      LeavingStart(queries, clients, c, registry.subs);
      var rest := clients[c];
      while rest != {}
        invariant Leaving(queries, clients, c, rest, registry.subs)
        invariant closed == registry.closed && inbox == registry.inbox && Sound(registry, ever)
        invariant clients == old(clients) && ever == old(ever) && !registry.down
        invariant Apply(registry, UnsubAll(c)) == Apply(old(registry), UnsubAll(c))
      {
        var q :| q in rest;
        LeaveOne(c, rest, q);
        rest := rest - {q};
      }
      LeavingDone(queries, clients, c, registry);
      assert FiledByQuery(queries, registry.subs) by { LeavingFiled(queries, clients, c, registry.subs); }
      clients := clients - {c};
    }

    method LeaveOne(c: Client, ghost rest: set<Query>, q: Query)
      requires Leaving(queries, clients, c, rest, registry.subs) && q in rest && !registry.down
      requires closed == registry.closed && inbox == registry.inbox && Sound(registry, ever)
      modifies this`queries, this`closed, this`registry
      ensures registry == Apply(old(registry), Unsub(c, q))
      ensures Leaving(queries, clients, c, rest - {q}, registry.subs)
      ensures closed == registry.closed && inbox == registry.inbox && Sound(registry, ever) && !registry.down
      ensures Apply(registry, UnsubAll(c)) == Apply(old(registry), UnsubAll(c))
    {
      hide Sound, Leaving, DropFromQuery, Apply;
      LeavingStep(queries, clients, c, rest, registry.subs, q);
      RegisteredOpen(registry, ever, (c, q));
      UnsubThenAll(registry, c, q);
      ApplySound(registry, ever, Unsub(c, q));
      assert ever + {} == ever;
      UnsubCloses(registry, c, q);
      Close(queries[q][c]);
      UnfileByQuery(q, c);
      registry := Apply(registry, Unsub(c, q));
    }

    method Stop()
      requires Valid() && !registry.down
      modifies this
      ensures Valid() && registry == Apply(old(registry), Shutdown) && ever == old(ever)
      ensures queries == map[] && clients == map[]
    {
      hide Sound, Apply, FiledByQuery;
      var rest := clients.Keys;
      while rest != {}
        invariant Valid() && !registry.down && ever == old(ever) && rest == clients.Keys
        invariant Apply(registry, Shutdown) == Apply(old(registry), Shutdown)
      {
        var c :| c in rest;
        AllThenShutdown(registry, c);
        UpAfter(registry, UnsubAll(c));
        RemoveAll(c);
        rest := rest - {c};
      }
      StoppedEmpty(queries, clients, registry, ever);
      registry := Apply(registry, Shutdown);
    }

    method Post(ch: Chan, msg: Message)
      requires ch !in closed
      modifies this`inbox
      ensures inbox == old(inbox)[ch := Received(old(inbox), ch) + [msg]]
    {
      inbox := inbox[ch := Received(inbox, ch) + [msg]];
    }

    /** The clients of one matching query, after the subscriptions in `done`. */
    method SendTo(q: Query, msg: Message, matching: set<Query>, ready: set<Chan>,
                  ghost done: set<(Client, Query)>)
      requires FiledOpen() && q in queries && q in matching && done !! Under(registry.subs, q)
      requires inbox == Deliver(registry.inbox, msg, Sent(registry.subs, matching, ready, done))
      modifies this`inbox
      ensures inbox
              == Deliver(registry.inbox, msg, Sent(registry.subs, matching, ready, done + Under(registry.subs, q)))
    {
      hide Sound, Sent, Deliver;
      var rest := queries[q].Keys;
      ghost var served := done;
      while rest != {}
        invariant rest <= queries[q].Keys
        invariant served == done + set s | s in registry.subs && s.1 == q && s.0 !in rest
        invariant inbox == Deliver(registry.inbox, msg, Sent(registry.subs, matching, ready, served))
      {
        var c :| c in rest;
        var ch := queries[q][c];
        assert InQuery(queries, (c, q));
        RegisteredOpen(registry, ever, (c, q));
        SentStep(registry, ever, matching, ready, served, (c, q));
        assert Sent(registry.subs, matching, ready, served) + {} == Sent(registry.subs, matching, ready, served);
        if ch in ready {
          DeliverStep(registry.inbox, msg, Sent(registry.subs, matching, ready, served), ch);
          Post(ch, msg);
        }
        served, rest := served + {(c, q)}, rest - {c};
      }
      assert served == done + Under(registry.subs, q);
    }

    /** The maps are filed and the channels sound; the inboxes may be ahead of the registry. */
    ghost predicate FiledOpen()
      reads this
    {
      FiledByQuery(queries, registry.subs) && closed == registry.closed && Sound(registry, ever)
    }

    method Send(msg: Message, matching: set<Query>, ready: set<Chan>)
      requires Valid() && !registry.down
      modifies this
      ensures Valid() && registry == Apply(old(registry), Pub(msg, matching, ready)) && ever == old(ever)
    {
      hide Sound, Sent, Deliver, FiledByClient;
      var rest := queries.Keys;
      ghost var served: set<(Client, Query)> := {};
      NothingSent(registry.subs, registry.inbox, msg, matching, ready);
      while rest != {}
        invariant rest <= queries.Keys
        invariant served == set s | s in registry.subs && s.1 !in rest
        invariant inbox == Deliver(registry.inbox, msg, Sent(registry.subs, matching, ready, served))
        modifies this`inbox
      {
        var q :| q in rest;
        ghost var more := Under(registry.subs, q);
        if q in matching {
          SendTo(q, msg, matching, ready, served);
        } else {
          SentSkips(registry.subs, matching, ready, served, more);
        }
        served, rest := served + more, rest - {q};
      }
      assert served == registry.subs.Keys;
      SentAll(registry.subs, matching, ready);
      ApplySound(registry, ever, Pub(msg, matching, ready));
      assert ever + {} == ever;
      registry := Apply(registry, Pub(msg, matching, ready));
    }

    method Handle(cmd: Command)
      requires Valid() && !registry.down && (cmd.Sub? ==> cmd.ch !in ever)
      modifies this
      ensures Valid() && registry == Apply(old(registry), cmd)
      ensures ever == old(ever) + if cmd.Sub? then {cmd.ch} else {}
    {
      hide Indexed, Apply;
      match cmd {
        case Unsub(c, q) => Remove(c, q);
        case UnsubAll(c) => RemoveAll(c);
        case Shutdown => Stop();
        case Sub(c, q, ch) => Add(c, q, ch);
        case Pub(msg, matching, ready) => Send(msg, matching, ready);
      }
    }
  }

  /** The server's loop, over the commands it is sent. */
  method Loop(cmds: seq<Command>) returns (index: SubscriptionIndex)
    requires FreshChannels(cmds)
    ensures fresh(index) && index.Valid() && index.registry == Run(cmds) && index.ever == Opened(cmds)
  {
    hide Indexed, Apply;
    index := new SubscriptionIndex();
    var i := 0;
    assert cmds[..0] == [];
    while i < |cmds|
      invariant 0 <= i <= |cmds| && fresh(index) && index.Valid()
      invariant index.registry == Run(cmds[..i]) && index.ever == Opened(cmds[..i]) && !index.registry.down
    {
      StepsOn(cmds, i);
      index.Handle(cmds[i]);
      if cmds[i].Shutdown? {
        StaysDown(cmds, i + 1);
        return;
      }
      i := i + 1;
    }
    assert cmds[..i] == cmds;
  }

  lemma {:induction false} StepsOn(cmds: seq<Command>, i: nat)
    requires i < |cmds| && FreshChannels(cmds) && !Run(cmds[..i]).down
    ensures Run(cmds[..i + 1]) == Apply(Run(cmds[..i]), cmds[i])
    ensures Run(cmds[..i + 1]).down <==> cmds[i].Shutdown?
    ensures Opened(cmds[..i + 1]) == Opened(cmds[..i]) + if cmds[i].Sub? then {cmds[i].ch} else {}
    ensures cmds[i].Sub? ==> cmds[i].ch !in Opened(cmds[..i])
  {
    assert cmds[..i + 1][..i] == cmds[..i];
    assert FreshChannels(cmds[..i + 1]);
    FreshLast(cmds[..i + 1]);
  }
}
