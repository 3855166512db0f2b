/**
 The front end's status rounds (client.c).  Every so often it asks its clients
 for their figures: a round is allocated with `pending` set to the number of
 clients, each client asked is put on the eta list with a pointer to the round,
 and each answer, timeout or disconnect takes one off `pending`.  At zero the
 callback prints the sum and the round is freed.

 A client may still be busy with an older round, may not be running, may have
 gone away without the request reaching it, and may answer after it was timed
 out: its reply is then matched by address, possibly with a newer request.
 */
module EtaRounds {
  import opened Common

  datatype Client = Client(running: bool, onList: bool, inFlight: Option<nat>, replies: seq<nat>)

  datatype Answer = Answer(client: nat, figure: nat)

  // `pending`, `live`, `total` are the C fields (`live`: not freed yet).  The
  // rest is history: clients asked, those still waited for, clients neither
  // busy nor running when the round began, answers, calls of the callback.
  datatype Round = Round(pending: nat, live: bool, total: nat,
                         asked: set<nat>, waiting: set<nat>, idle: nat, answers: seq<Answer>, fired: nat)

  // `known` holds every client there ever was: a new client is a new object.
  datatype State = State(clients: map<nat, Client>, rounds: seq<Round>, known: set<nat>)

  predicate Init(s: State) { s == State(map[], [], {}) }

  // --- the operations ---

  /** fio_client_dec_jobs_eta; `pending` is unsigned. */
  function Dec(x: Round): Round {
    var p := if x.pending == 0 then UINT_MOD - 1 else x.pending - 1;
    if p == 0 then x.(pending := 0, live := false, fired := x.fired + 1) else x.(pending := p)
  }

  // The loop over `skipped`, which stops when the round is gone.
  function DecBy(x: Round, n: nat): Round
    decreases n
  {
    if n == 0 then x else var y := Dec(x); if !y.live then y else DecBy(y, n - 1)
  }

  predicate Asks(c: Client) { !c.onList && c.running }

  function Ask(c: Client, r: nat, sent: bool): Client {
    if !Asks(c) then c
    else c.(onList := true, inFlight := Some(r), replies := if sent then c.replies + [r] else c.replies)
  }

  function Asked(m: map<nat, Client>): set<nat> { set c | c in m && Asks(m[c]) }

  function Busy(m: map<nat, Client>): set<nat> { set c | c in m && m[c].onList }

  function Idlers(m: map<nat, Client>): set<nat> { set c | c in m && !m[c].onList && !m[c].running }

  function NewRound(m: map<nat, Client>): Round {
    Round(|m|, true, 0, Asked(m), Asked(m), |Idlers(m)|, [], 0)
  }

  /** request_client_etas; the command reaches the clients in `sent`. */
  function Request(s: State, sent: set<nat>): State {
    s.(clients := map c | c in s.clients :: Ask(s.clients[c], |s.rounds|, c in sent),
       rounds := s.rounds + [DecBy(NewRound(s.clients), |Busy(s.clients)|)])
  }

  function SetRound(s: State, r: nat, x: Round): State {
    if r < |s.rounds| then s.(rounds := s.rounds[r := x]) else s
  }

  function Idle(c: Client): Client { c.(onList := false, inFlight := None) }

  function DropReply(c: Client, k: nat): Client
    requires k < |c.replies|
  {
    c.(replies := c.replies[..k] + c.replies[k + 1..])
  }

  // Client `c` is no longer waited for by round `r`.
  function Release(s: State, c: nat, r: Option<nat>): State {
    if r.Some? && r.value < |s.rounds| then
      var x := s.rounds[r.value];
      SetRound(s, r.value, Dec(x.(waiting := x.waiting - {c})))
    else s
  }

  /** remove_reply_cmd and handle_eta: the k-th stored reply is matched, and the
      round it was saved with is summed into and counted down. */
  function Receive(s: State, c: nat, k: nat, figure: nat): State
    requires c in s.clients && k < |s.clients[c].replies|
  {
    var r := s.clients[c].replies[k];
    var t := s.(clients := s.clients[c := Idle(DropReply(s.clients[c], k))]);
    if r < |s.rounds| then
      var x := s.rounds[r];
      Release(SetRound(t, r, x.(total := (x.total + figure) % UINT_MOD, answers := x.answers + [Answer(c, figure)])),
              c, Some(r))
    else t
  }

  /** handle_cmd_timeout for a SEND_ETA command. */
  function Timeout(s: State, c: nat, k: nat): State
    requires c in s.clients && k < |s.clients[c].replies|
  {
    Release(s.(clients := s.clients[c := Idle(DropReply(s.clients[c], k))]), c, s.clients[c].inFlight)
  }

  /** remove_client */
  function Remove(s: State, c: nat): State
    requires c in s.clients
  {
    var t := s.(clients := s.clients - {c});
    if s.clients[c].onList then Release(t, c, s.clients[c].inFlight) else t
  }

  predicate CanReceive(s: State, t: State, c: nat, k: nat, figure: nat) {
    c in s.clients && k < |s.clients[c].replies| && t == Receive(s, c, k, figure)
  }

  predicate CanTimeout(s: State, t: State, c: nat, k: nat) {
    c in s.clients && k < |s.clients[c].replies| && t == Timeout(s, c, k)
  }

  predicate CanRemove(s: State, t: State, c: nat) { c in s.clients && t == Remove(s, c) }

  predicate CanAdd(s: State, t: State, c: nat) {
    c !in s.known && t == s.(clients := s.clients[c := Client(false, false, None, [])], known := s.known + {c})
  }

  predicate CanSwitch(s: State, t: State, c: nat, running: bool) {
    c in s.clients && t == s.(clients := s.clients[c := s.clients[c].(running := running)])
  }

  /** What one turn of fio_handle_clients may do.  A request is only made while
      there are clients. */
  ghost predicate Step(s: State, t: State) {
    || (s.clients != map[] && exists sent :: t == Request(s, sent))
    || (exists c, k, figure :: CanReceive(s, t, c, k, figure))
    || (exists c, k :: CanTimeout(s, t, c, k))
    || (exists c :: CanRemove(s, t, c))
    || (exists c :: CanAdd(s, t, c))
    || (exists c, running :: CanSwitch(s, t, c, running))
  }

  ghost predicate Run(b: seq<State>) {
    && b != [] && Init(b[0])
    && (forall i :: 0 <= i < |b| - 1 ==> Step(b[i], b[i + 1]))
    && (forall i :: 0 <= i < |b| ==> |b[i].clients| < UINT_MOD)
  }

  // --- the invariant ---

  function Figures(a: seq<Answer>): nat {
    if a == [] then 0 else Figures(a[..|a| - 1]) + a[|a| - 1].figure
  }

  predicate Answers(x: Round) {
    && x.total == Figures(x.answers) % UINT_MOD
    && (forall i :: 0 <= i < |x.answers| ==> x.answers[i].client in x.asked - x.waiting)
    && (forall i, j :: 0 <= i < j < |x.answers| ==> x.answers[i].client != x.answers[j].client)
  }

  predicate RoundOk(x: Round) {
    && x.waiting <= x.asked && Answers(x)
    && x.fired == (if x.live then 0 else 1)
    && (x.live ==> 0 < x.pending == |x.waiting| + x.idle < UINT_MOD)
    && (!x.live ==> x.waiting == {} && x.idle == 0)
  }

  predicate ClientOk(s: State, c: nat)
    requires c in s.clients
  {
    var x := s.clients[c];
    && c in s.known
    && (x.onList <==> x.inFlight.Some?)
    && (x.replies == [] || (x.onList && x.replies == [x.inFlight.value]))
    && (x.onList ==> x.inFlight.value < |s.rounds| && c in s.rounds[x.inFlight.value].waiting)
  }

  predicate Waits(s: State, r: nat)
    requires r < |s.rounds|
  {
    && RoundOk(s.rounds[r])
    && (forall c :: c in s.rounds[r].waiting ==> c in s.clients && s.clients[c].inFlight == Some(r))
  }

  predicate Inv(s: State) {
    && (forall c :: c in s.clients ==> ClientOk(s, c))
    && (forall r :: 0 <= r < |s.rounds| ==> Waits(s, r))
  }

  // --- steps keep it ---

  lemma {:induction false} DecByCounts(x: Round, n: nat)
    requires n <= x.pending < UINT_MOD && x.live
    ensures DecBy(x, n) == if n == 0 then x
                           else if n == x.pending then x.(pending := 0, live := false, fired := x.fired + 1)
                           else x.(pending := x.pending - n)
    decreases n
  {
    if n != 0 && x.pending != 1 {
      DecByCounts(x.(pending := x.pending - 1), n - 1);
    }
  }

  lemma ThreeParts(all: set<nat>, x: set<nat>, y: set<nat>, z: set<nat>)
    requires all == x + y + z && x !! y && (x + y) !! z
    ensures |all| == |x| + |y| + |z|
  {
  }

  // The clients fall into asked, busy and neither.
  lemma Parts(m: map<nat, Client>)
    ensures |m| == |Asked(m)| + |Busy(m)| + NewRound(m).idle
  {
    ThreeParts(m.Keys, Asked(m), Busy(m), Idlers(m));
    assert |m| == |m.Keys|;
  }

  lemma RequestRound(s: State)
    requires Inv(s) && s.clients != map[] && |s.clients| < UINT_MOD
    ensures var x := DecBy(NewRound(s.clients), |Busy(s.clients)|);
            RoundOk(x) && x.waiting == x.asked == Asked(s.clients) && x.idle == NewRound(s.clients).idle
  {
    Parts(s.clients);
    assert |s.clients| != 0;
    DecByCounts(NewRound(s.clients), |Busy(s.clients)|);
  }

  lemma RequestInv(s: State, sent: set<nat>)
    requires Inv(s) && s.clients != map[] && |s.clients| < UINT_MOD
    ensures Inv(Request(s, sent))
  {
    RequestRound(s);
    var t := Request(s, sent);
    forall c | c in t.clients
      ensures ClientOk(t, c)
    {
      assert ClientOk(s, c);
    }
    forall r | 0 <= r < |t.rounds|
      ensures Waits(t, r)
    {
      if r < |s.rounds| {
        assert Waits(s, r);
      }
    }
  }

  lemma FiguresStep(a: seq<Answer>, y: Answer)
    ensures Figures(a + [y]) == Figures(a) + y.figure
  {
    assert (a + [y])[..|a|] == a;
  }

  // One client off a live round.
  lemma DecOk(x: Round, c: nat)
    requires RoundOk(x) && c in x.waiting
    ensures var y := Dec(x.(waiting := x.waiting - {c}));
            RoundOk(y) && y.waiting == x.waiting - {c} && y.asked == x.asked
  {
    assert |x.waiting| == |x.waiting - {c}| + 1;
    var y := x.(waiting := x.waiting - {c});
    assert Answers(y);
  }

  // The round with the answer noted and the client released.
  function Heard(x: Round, c: nat, figure: nat): Round {
    x.(total := (x.total + figure) % UINT_MOD, answers := x.answers + [Answer(c, figure)], waiting := x.waiting - {c})
  }

  // The client answers once.
  lemma HeardAnswers(x: Round, c: nat, figure: nat)
    requires Answers(x) && x.waiting <= x.asked && c in x.waiting
    ensures Answers(Heard(x, c, figure))
  {
    FiguresStep(x.answers, Answer(c, figure));
  }

  lemma AnswerOk(x: Round, c: nat, figure: nat)
    requires RoundOk(x) && c in x.waiting
    ensures var z := Dec(Heard(x, c, figure));
            RoundOk(z) && z.waiting == x.waiting - {c} && z.asked == x.asked
  {
    DecOk(x, c);
    HeardAnswers(x, c, figure);
  }

  // `t` is `s` with client `c` off its round, and idle or gone.
  lemma ReleasedInv(s: State, t: State, c: nat, r: nat)
    requires Inv(s) && c in s.clients && s.clients[c].inFlight == Some(r) && r < |s.rounds|
    requires t.known == s.known && |t.rounds| == |s.rounds|
    requires t.clients.Keys - {c} == s.clients.Keys - {c}
    requires forall d :: d in t.clients && d != c ==> d in s.clients && t.clients[d] == s.clients[d]
    requires c in t.clients ==> !t.clients[c].onList && t.clients[c].inFlight.None? && t.clients[c].replies == []
    requires forall q :: 0 <= q < |s.rounds| && q != r ==> t.rounds[q] == s.rounds[q]
    requires RoundOk(t.rounds[r]) && t.rounds[r].waiting == s.rounds[r].waiting - {c}
    ensures Inv(t)
  {
    assert ClientOk(s, c);
    forall d | d in t.clients
      ensures ClientOk(t, d)
    {
      assert d != c ==> d in t.clients.Keys - {c};
      assert ClientOk(s, d);
    }
    forall q | 0 <= q < |t.rounds|
      ensures Waits(t, q)
    {
      assert Waits(s, q);
      forall d | d in t.rounds[q].waiting
        ensures d in t.clients && t.clients[d].inFlight == Some(q)
      {
        assert d in s.rounds[q].waiting;
        assert d != c;
        assert d in s.clients.Keys - {c};
      }
    }
  }

  lemma ReceiveInv(s: State, c: nat, k: nat, figure: nat)
    requires Inv(s) && c in s.clients && k < |s.clients[c].replies|
    ensures Inv(Receive(s, c, k, figure))
  {
    assert ClientOk(s, c);
    var r := s.clients[c].inFlight.value;
    assert Waits(s, r);
    AnswerOk(s.rounds[r], c, figure);
    ReleasedInv(s, Receive(s, c, k, figure), c, r);
  }

  lemma TimeoutInv(s: State, c: nat, k: nat)
    requires Inv(s) && c in s.clients && k < |s.clients[c].replies|
    ensures Inv(Timeout(s, c, k))
  {
    assert ClientOk(s, c);
    var r := s.clients[c].inFlight.value;
    assert Waits(s, r);
    DecOk(s.rounds[r], c);
    ReleasedInv(s, Timeout(s, c, k), c, r);
  }

  lemma RemoveInv(s: State, c: nat)
    requires Inv(s) && c in s.clients
    ensures Inv(Remove(s, c))
  {
    assert ClientOk(s, c);
    var t := Remove(s, c);
    if s.clients[c].onList {
      var r := s.clients[c].inFlight.value;
      assert Waits(s, r);
      DecOk(s.rounds[r], c);
      ReleasedInv(s, t, c, r);
    } else {
      assert forall d :: d in t.clients ==> ClientOk(s, d);
      forall q | 0 <= q < |t.rounds|
        ensures Waits(t, q)
      {
        assert Waits(s, q);
      }
    }
  }

  // A change that touches neither the lists nor the rounds.
  lemma OtherInv(s: State, t: State, c: nat)
    requires Inv(s)
    requires CanAdd(s, t, c) || exists running :: CanSwitch(s, t, c, running)
    ensures Inv(t)
  {
    forall d | d in t.clients
      ensures ClientOk(t, d)
    {
      assert d in s.clients ==> ClientOk(s, d);
    }
    forall q | 0 <= q < |t.rounds|
      ensures Waits(t, q)
    {
      assert Waits(s, q);
      forall d | d in t.rounds[q].waiting
        ensures d in t.clients && t.clients[d].inFlight == Some(q)
      {
        assert ClientOk(s, d);
      }
    }
  }

  lemma StepInv(s: State, t: State)
    requires Inv(s) && Step(s, t) && |s.clients| < UINT_MOD
    ensures Inv(t)
  {
    if s.clients != map[] && exists sent :: t == Request(s, sent) {
      var sent :| t == Request(s, sent);
      RequestInv(s, sent);
    } else if c, k, figure :| CanReceive(s, t, c, k, figure) {
      ReceiveInv(s, c, k, figure);
    } else if c, k :| CanTimeout(s, t, c, k) {
      TimeoutInv(s, c, k);
    } else if c :| CanRemove(s, t, c) {
      RemoveInv(s, c);
    } else if c :| CanAdd(s, t, c) {
      OtherInv(s, t, c);
    } else {
      var c, running :| CanSwitch(s, t, c, running);
      OtherInv(s, t, c);
    }
  }

  lemma {:induction false} RunInv(b: seq<State>, i: nat)
    requires Run(b) && i < |b|
    ensures Inv(b[i])
  {
    if i != 0 {
      RunInv(b, i - 1);
      StepInv(b[i - 1], b[i]);
    }
  }

  // --- what the rounds promise ---

  predicate AllReady(m: map<nat, Client>) {
    forall c :: c in m ==> m[c].onList || m[c].running
  }

  // The clients whose eta_in_flight is round r.
  function Holders(s: State, r: nat): set<nat> { set c | c in s.clients && s.clients[c].inFlight == Some(r) }

  /** In every reachable state: `pending` of a round not yet freed counts the
      clients still holding it plus those that could not be asked; it fired at
      most once, and it has fired exactly when nobody holds it and everybody
      could be asked. */
  lemma PendingExact(b: seq<State>, i: nat, r: nat)
    requires Run(b) && i < |b| && r < |b[i].rounds|
    ensures var s, x := b[i], b[i].rounds[r];
            && (x.live ==> x.pending == |Holders(s, r)| + x.idle)
            && x.fired <= 1 && (x.live <==> x.fired == 0)
            && (x.fired == 1 <==> Holders(s, r) == {} && x.idle == 0)
  {
    RunInv(b, i);
    HoldersWaited(b[i], r);
  }

  /** A round can fire only if every client was running or busy when it was
      requested: `idle` is fixed at the request, and a client that is neither
      keeps the round from ever firing. */
  lemma IdleAtRequest(s: State, sent: set<nat>)
    requires Inv(s) && s.clients != map[] && |s.clients| < UINT_MOD
    ensures var x := Request(s, sent).rounds[|s.rounds|];
            && (x.idle == 0 <==> AllReady(s.clients))
            && (x.fired == 1 <==> forall c :: c in s.clients ==> s.clients[c].onList)
  {
    RequestRound(s);
    Parts(s.clients);
    DecByCounts(NewRound(s.clients), |Busy(s.clients)|);
    if AllReady(s.clients) {
      assert Idlers(s.clients) == {};
    } else {
      var c :| c in s.clients && !s.clients[c].onList && !s.clients[c].running;
      assert c in Idlers(s.clients);
    }
    if forall c :: c in s.clients ==> s.clients[c].onList {
      assert Asked(s.clients) == {} && Idlers(s.clients) == {};
      assert |s.clients| != 0;
    } else {
      var c :| c in s.clients && !s.clients[c].onList;
      assert c in Asked(s.clients) || c in Idlers(s.clients);
      assert Asked(s.clients) != {} || Idlers(s.clients) != {};
    }
  }

  // A step changes neither who a round asked nor how many it could not ask.
  lemma StepKeepsRound(s: State, t: State, r: nat)
    requires Step(s, t) && r < |s.rounds|
    ensures r < |t.rounds| && t.rounds[r].idle == s.rounds[r].idle && t.rounds[r].asked == s.rounds[r].asked
  {
  }

  lemma {:induction false} RunKeepsRound(b: seq<State>, i: nat, j: nat, r: nat)
    requires Run(b) && i <= j < |b| && r < |b[i].rounds|
    ensures r < |b[j].rounds| && b[j].rounds[r].idle == b[i].rounds[r].idle
    ensures b[j].rounds[r].asked == b[i].rounds[r].asked
  {
    if i != j {
      RunKeepsRound(b, i, j - 1, r);
      StepKeepsRound(b[j - 1], b[j], r);
    }
  }

  /** The whole life of a round requested at step i: at any later time it has
      fired if and only if every client was running or busy at the request and
      none of the clients asked still holds it. */
  lemma FiresExactlyWhen(b: seq<State>, i: nat, j: nat, sent: set<nat>)
    requires Run(b) && i < j < |b| && b[i].clients != map[] && b[i + 1] == Request(b[i], sent)
    ensures var r := |b[i].rounds|;
            && r < |b[j].rounds| && b[j].rounds[r].asked == Asked(b[i].clients)
            && (b[j].rounds[r].fired == 1 <==>
                AllReady(b[i].clients) && Holders(b[j], r) == {})
  {
    RunInv(b, i);
    RequestRound(b[i]);
    IdleAtRequest(b[i], sent);
    var r := |b[i].rounds|;
    RunKeepsRound(b, i + 1, j, r);
    PendingExact(b, j, r);
  }

  // One client that is not running yet: the round waits for it although nobody
  // was asked.
  lemma NeverFires() returns (b: seq<State>)
    ensures Run(b) && |b| == 3 && |b[2].rounds| == 1
    ensures b[2].rounds[0].pending == 1 && b[2].rounds[0].fired == 0 && Holders(b[2], 0) == {}
  {
    var c := Client(false, false, None, []);
    var s := State(map[0 := c], [], {0});
    b := [State(map[], [], {}), s, Request(s, {})];
    assert CanAdd(b[0], b[1], 0);
    assert Asked(s.clients) == {} && Busy(s.clients) == {};
    assert Idlers(s.clients) == {0};
    assert Step(b[0], b[1]) && Step(b[1], b[2]);
    assert |map[0 := c]| == 1 && b[2].clients == map[0 := c];
  }

  /** No client and no stored reply refers to a freed round, so neither assertion
      of the code can fail: the reply that is matched carries the client's own
      round, and a client that is asked holds none. */
  lemma NothingDangles(b: seq<State>, i: nat, c: nat)
    requires Run(b) && i < |b| && c in b[i].clients
    ensures var s, x := b[i], b[i].clients[c];
            && (x.inFlight.Some? ==> x.inFlight.value < |s.rounds| && s.rounds[x.inFlight.value].live)
            && (forall k :: 0 <= k < |x.replies| ==> x.inFlight == Some(x.replies[k]))
            && (Asks(x) ==> x.inFlight.None?)
  {
    RunInv(b, i);
    var s := b[i];
    assert ClientOk(s, c);
    if s.clients[c].inFlight.Some? {
      assert Waits(s, s.clients[c].inFlight.value);
    }
  }

  // --- what happened, event by event ---

  datatype Event =
    | Requested(sent: set<nat>)
    | Received(client: nat, reply: nat, figure: nat)   // which stored reply was matched
    | TimedOut(client: nat, reply: nat)
    | Removed(client: nat)
    | Added(client: nat)
    | Switched(client: nat, running: bool)

  ghost predicate StepBy(s: State, e: Event, t: State) {
    match e
    case Requested(sent) => s.clients != map[] && t == Request(s, sent)
    case Received(c, k, figure) => CanReceive(s, t, c, k, figure)
    case TimedOut(c, k) => CanTimeout(s, t, c, k)
    case Removed(c) => CanRemove(s, t, c)
    case Added(c) => CanAdd(s, t, c)
    case Switched(c, running) => CanSwitch(s, t, c, running)
  }

  lemma StepHasEvent(s: State, t: State)
    ensures Step(s, t) <==> exists e :: StepBy(s, e, t)
  {
    if Step(s, t) {
      if s.clients != map[] && exists sent :: t == Request(s, sent) {
        var sent :| t == Request(s, sent);
        assert StepBy(s, Requested(sent), t);
      } else if c, k, figure :| CanReceive(s, t, c, k, figure) {
        assert StepBy(s, Received(c, k, figure), t);
      } else if c, k :| CanTimeout(s, t, c, k) {
        assert StepBy(s, TimedOut(c, k), t);
      } else if c :| CanRemove(s, t, c) {
        assert StepBy(s, Removed(c), t);
      } else if c :| CanAdd(s, t, c) {
        assert StepBy(s, Added(c), t);
      } else {
        var c, running :| CanSwitch(s, t, c, running);
        assert StepBy(s, Switched(c, running), t);
      }
    }
  }

  // A run together with what happened in each of its steps.
  ghost predicate Logged(b: seq<State>, log: seq<Event>) {
    && Run(b) && |log| == |b| - 1
    && forall i {:trigger log[i]} :: 0 <= i < |log| ==> StepBy(b[i], log[i], b[i + 1])
  }

  // Every run has such a log.
  lemma {:induction false} LogUpTo(b: seq<State>, n: nat) returns (log: seq<Event>)
    requires Run(b) && n < |b|
    ensures |log| == n && forall i {:trigger log[i]} :: 0 <= i < n ==> StepBy(b[i], log[i], b[i + 1])
  {
    log := [];
    if n != 0 {
      log := LogUpTo(b, n - 1);
      var e := EventAt(b, n - 1);
      log := log + [e];
    }
  }

  lemma EventAt(b: seq<State>, i: nat) returns (e: Event)
    requires Run(b) && i + 1 < |b|
    ensures StepBy(b[i], e, b[i + 1])
  {
    StepHasEvent(b[i], b[i + 1]);
    e :| StepBy(b[i], e, b[i + 1]);
  }

  lemma RunHasLog(b: seq<State>) returns (log: seq<Event>)
    requires Run(b)
    ensures Logged(b, log)
  {
    log := LogUpTo(b, |b| - 1);
  }

  // What an event adds to the answers of round r: the figure of a client whose
  // matched reply was stored for r.
  function Says(s: State, e: Event, r: nat): seq<Answer> {
    if e.Received? && e.client in s.clients && e.reply < |s.clients[e.client].replies|
       && s.clients[e.client].replies[e.reply] == r
    then [Answer(e.client, e.figure)] else []
  }

  // The answers to round r in the first n events.
  function AnswersTo(b: seq<State>, log: seq<Event>, r: nat, n: nat): seq<Answer>
    requires n <= |log| <= |b|
  {
    if n == 0 then [] else AnswersTo(b, log, r, n - 1) + Says(b[n - 1], log[n - 1], r)
  }

  lemma AnswersStep(s: State, e: Event, t: State, r: nat)
    requires Inv(s) && StepBy(s, e, t) && r < |s.rounds|
    ensures r < |t.rounds| && t.rounds[r].answers == s.rounds[r].answers + Says(s, e, r)
  {
    if e.Received? {
      assert ClientOk(s, e.client);
    }
  }

  lemma AnswersOfNew(s: State, e: Event, t: State, r: nat)
    requires Inv(s) && StepBy(s, e, t) && r >= |s.rounds|
    ensures Says(s, e, r) == [] && (r < |t.rounds| ==> t.rounds[r].answers == [])
  {
    if e.Received? {
      assert ClientOk(s, e.client);
    }
    if e.Requested? {
      DecByKeepsAnswers(NewRound(s.clients), |Busy(s.clients)|);
    }
  }

  lemma {:induction false} DecByKeepsAnswers(x: Round, n: nat)
    ensures DecBy(x, n).answers == x.answers
    decreases n
  {
    if n != 0 && Dec(x).live {
      DecByKeepsAnswers(Dec(x), n - 1);
    }
  }

  /** The answers a round has summed are the figures the clients sent for it, in
      the order in which their replies were matched, and nothing else. */
  lemma {:induction false} AnswersAreReceived(b: seq<State>, log: seq<Event>, r: nat, n: nat)
    requires Logged(b, log) && n < |b|
    ensures AnswersTo(b, log, r, n) == if r < |b[n].rounds| then b[n].rounds[r].answers else []
  {
    if n != 0 {
      AnswersAreReceived(b, log, r, n - 1);
      AnswersAt(b, log, r, n - 1);
    }
  }

  lemma AnswersAt(b: seq<State>, log: seq<Event>, r: nat, i: nat)
    requires Logged(b, log) && i < |log|
    ensures if r < |b[i].rounds|
            then r < |b[i + 1].rounds| && b[i + 1].rounds[r].answers == b[i].rounds[r].answers + Says(b[i], log[i], r)
            else Says(b[i], log[i], r) == [] && (r < |b[i + 1].rounds| ==> b[i + 1].rounds[r].answers == [])
  {
    RunInv(b, i);
    EventOf(b, log, i);
    if r < |b[i].rounds| {
      AnswersStep(b[i], log[i], b[i + 1], r);
    } else {
      AnswersOfNew(b[i], log[i], b[i + 1], r);
    }
  }

  lemma EventOf(b: seq<State>, log: seq<Event>, i: nat)
    requires Logged(b, log) && i < |log|
    ensures StepBy(b[i], log[i], b[i + 1])
  {
  }

  /** What the callback prints, over any run: when a round has fired, its total is
      the sum of the figures received for it, at most one from each client it
      asked, and nobody holds it any more. */
  lemma FiredTotal(b: seq<State>, log: seq<Event>, n: nat, r: nat)
    requires Logged(b, log) && n < |b| && r < |b[n].rounds| && b[n].rounds[r].fired == 1
    ensures var heard := AnswersTo(b, log, r, n);
            && b[n].rounds[r].total == Figures(heard) % UINT_MOD
            && (forall j :: 0 <= j < |heard| ==> heard[j].client in b[n].rounds[r].asked)
            && (forall j, k :: 0 <= j < k < |heard| ==> heard[j].client != heard[k].client)
            && Holders(b[n], r) == {}
  {
    RunInv(b, n);
    assert Waits(b[n], r);
    PendingExact(b, n, r);
    AnswersAreReceived(b, log, r, n);
  }

  // n steps lead from s to t.
  ghost predicate Leads(s: State, t: State, n: nat)
    decreases n
  {
    if n == 0 then s == t else exists u :: Step(s, u) && Leads(u, t, n - 1)
  }

  lemma HoldersWaited(s: State, r: nat)
    requires Inv(s) && r < |s.rounds|
    ensures Holders(s, r) == s.rounds[r].waiting && RoundOk(s.rounds[r])
  {
    assert Waits(s, r);
    forall c | c in s.clients && s.clients[c].inFlight == Some(r) ensures c in s.rounds[r].waiting {
      assert ClientOk(s, c);
    }
  }

  // Some continuation of s leads to a state in which round r has fired.
  ghost predicate CanFire(s: State, r: nat) {
    exists t, n :: Leads(s, t, n) && r < |t.rounds| && t.rounds[r].fired == 1
  }

  lemma FiresAlready(s: State, r: nat)
    requires Inv(s) && r < |s.rounds| && s.rounds[r].idle == 0 && Holders(s, r) == {}
    ensures CanFire(s, r)
  {
    HoldersWaited(s, r);
    assert Leads(s, s, 0);
  }

  lemma FiresLater(s: State, u: State, r: nat)
    requires Step(s, u) && CanFire(u, r)
    ensures CanFire(s, r)
  {
    var t, n: nat :| Leads(u, t, n) && r < |t.rounds| && t.rounds[r].fired == 1;
    assert Leads(s, t, n + 1);
  }

  lemma RemoveOne(s: State, r: nat, c: nat) returns (t: State)
    requires Inv(s) && r < |s.rounds| && c in Holders(s, r)
    ensures Step(s, t) && Inv(t) && r < |t.rounds| && t.rounds[r].idle == s.rounds[r].idle
    ensures |Holders(t, r)| < |Holders(s, r)|
  {
    t := Remove(s, c);
    assert CanRemove(s, t, c);
    RemoveInv(s, c);
    StepKeepsRound(s, t, r);
    RemoveFreesHolder(s, c, r);
  }

  /** A round for which everybody could be asked is never stuck: from any state of
      any run some continuation leads to one in which it has fired. */
  lemma {:induction false} CanStillFire(s: State, r: nat)
    requires Inv(s) && r < |s.rounds| && s.rounds[r].idle == 0
    ensures CanFire(s, r)
    decreases |Holders(s, r)|
  {
    if Holders(s, r) == {} {
      FiresAlready(s, r);
    } else {
      var c :| c in Holders(s, r);
      var u := RemoveOne(s, r, c);
      CanStillFire(u, r);
      FiresLater(s, u, r);
    }
  }

  lemma RemoveFreesHolder(s: State, c: nat, r: nat)
    requires Inv(s) && c in Holders(s, r)
    ensures |Holders(Remove(s, c), r)| < |Holders(s, r)|
    ensures |Remove(s, c).clients| < |s.clients|
  {
    var t := Remove(s, c);
    assert t.clients == s.clients - {c};
    assert Holders(t, r) == Holders(s, r) - {c};
    assert t.clients.Keys == s.clients.Keys - {c};
    assert |t.clients| == |t.clients.Keys| && |s.clients| == |s.clients.Keys|;
  }

  // --- whom a step concerns ---

  /** A request reaches exactly the clients that can be asked: each of them then
      holds the new round, with its reply stored if the command went out, and no
      other client changes. */
  lemma RequestReaches(s: State, sent: set<nat>, c: nat)
    requires Inv(s) && c in s.clients
    ensures var t, x := Request(s, sent), s.clients[c];
            && t.clients.Keys == s.clients.Keys
            && (if !x.onList && x.running
                then t.clients[c] == Client(true, true, Some(|s.rounds|), if c in sent then [|s.rounds|] else [])
                else t.clients[c] == x)
            && |t.rounds| == |s.rounds| + 1 && forall q :: 0 <= q < |s.rounds| ==> t.rounds[q] == s.rounds[q]
  {
    assert ClientOk(s, c);
  }

  // Client c has no round and no stored reply; nothing else has changed but the
  // round it held.
  ghost predicate OnlyReleased(s: State, t: State, c: nat)
    requires c in s.clients
  {
    && t.known == s.known && |t.rounds| == |s.rounds|
    && (forall d :: d in s.clients && d != c ==> d in t.clients && t.clients[d] == s.clients[d])
    && (forall d :: d in t.clients ==> d in s.clients)
    && (c in t.clients ==> t.clients[c] == Client(s.clients[c].running, false, None, []))
    && (forall q :: 0 <= q < |s.rounds| && s.clients[c].inFlight != Some(q) ==> t.rounds[q] == s.rounds[q])
  }

  /** An answer and a timeout release their client and nobody else; a disconnect
      takes the client away as well. */
  lemma ReleasesOne(s: State, c: nat, k: nat, figure: nat)
    requires Inv(s) && c in s.clients
    ensures OnlyReleased(s, Remove(s, c), c) && c !in Remove(s, c).clients
    ensures k < |s.clients[c].replies| ==>
              && OnlyReleased(s, Receive(s, c, k, figure), c) && c in Receive(s, c, k, figure).clients
              && OnlyReleased(s, Timeout(s, c, k), c) && c in Timeout(s, c, k).clients
  {
    assert ClientOk(s, c);
  }

  // --- the request loop as the code runs it ---

  // The clients seen so far.
  ghost function Seen(m: map<nat, Client>, cs: seq<nat>): map<nat, Client> {
    map c | c in m && c in cs :: m[c]
  }

  function NoteIf(s: set<nat>, c: nat, b: bool): set<nat> { if b then s + {c} else s }

  lemma AskedMore(p: map<nat, Client>, c: nat, v: Client)
    requires c !in p
    ensures c !in Asked(p) && Asked(p[c := v]) == NoteIf(Asked(p), c, Asks(v))
  {
  }

  lemma BusyMore(p: map<nat, Client>, c: nat, v: Client)
    requires c !in p
    ensures c !in Busy(p) && Busy(p[c := v]) == NoteIf(Busy(p), c, v.onList)
  {
  }

  lemma IdlersMore(p: map<nat, Client>, c: nat, v: Client)
    requires c !in p
    ensures c !in Idlers(p) && Idlers(p[c := v]) == NoteIf(Idlers(p), c, !v.onList && !v.running)
  {
  }

  lemma SeesOneMore(m: map<nat, Client>, cs: seq<nat>, c: nat)
    requires c in m && c !in cs
    ensures Seen(m, cs + [c]) == Seen(m, cs)[c := m[c]] && c !in Seen(m, cs)
  {
  }

  // The new round and the skip count after one more client.
  lemma RoundMore(p: map<nat, Client>, c: nat, v: Client)
    requires c !in p
    ensures var q, x, y := p[c := v], NewRound(p), NewRound(p[c := v]);
            && |q| == |p| + 1
            && |Busy(q)| == |Busy(p)| + (if v.onList then 1 else 0)
            && y == x.(pending := x.pending + 1, asked := NoteIf(x.asked, c, Asks(v)),
                       waiting := NoteIf(x.asked, c, Asks(v)),
                       idle := x.idle + if v.onList || v.running then 0 else 1)
  {
    AskedMore(p, c, v);
    BusyMore(p, c, v);
    IdlersMore(p, c, v);
    assert |p[c := v]| == |p| + 1;
  }

  // The clients after those in `cs` have been visited.
  ghost function Visited(m: map<nat, Client>, cs: seq<nat>, r: nat, sent: set<nat>): map<nat, Client> {
    map c | c in m :: if c in cs then Ask(m[c], r, c in sent) else m[c]
  }

  lemma VisitsOneMore(m: map<nat, Client>, cs: seq<nat>, c: nat, r: nat, sent: set<nat>)
    requires c in m && c !in cs
    ensures Visited(m, cs + [c], r, sent) == Visited(m, cs, r, sent)[c := Ask(m[c], r, c in sent)]
    ensures c in Visited(m, cs, r, sent) && Visited(m, cs, r, sent)[c] == m[c]
  {
  }

  lemma VisitedAll(s: State, cs: seq<nat>, sent: set<nat>)
    requires forall c :: c in s.clients ==> c in cs
    ensures Visited(s.clients, cs, |s.rounds|, sent) == Request(s, sent).clients
    ensures Seen(s.clients, cs) == s.clients
  {
  }

  // The walk has visited `cs`.
  ghost predicate Walked(s: State, cs: seq<nat>, sent: set<nat>, n: nat, m: map<nat, Client>, x: Round, skipped: nat) {
    && |Seen(s.clients, cs)| == |cs|
    && m == Visited(s.clients, cs, |s.rounds|, sent)
    && x == NewRound(Seen(s.clients, cs)).(pending := n)
    && skipped == |Busy(Seen(s.clients, cs))|
  }

  lemma WalkOneMore(s: State, cs: seq<nat>, sent: set<nat>, n: nat, m: map<nat, Client>, x: Round, skipped: nat, c: nat)
    requires Walked(s, cs, sent, n, m, x, skipped) && c in s.clients && c !in cs
    ensures c in m && m[c] == s.clients[c]
    ensures m[c].onList ==> Walked(s, cs + [c], sent, n, m, x, skipped + 1)
    ensures Asks(m[c]) ==> Walked(s, cs + [c], sent, n, m[c := Ask(m[c], |s.rounds|, c in sent)],
                                  x.(asked := x.asked + {c}, waiting := x.waiting + {c}), skipped)
    ensures !m[c].onList && !m[c].running ==> Walked(s, cs + [c], sent, n, m, x.(idle := x.idle + 1), skipped)
  {
    SeesOneMore(s.clients, cs, c);
    RoundMore(Seen(s.clients, cs), c, s.clients[c]);
    VisitsOneMore(s.clients, cs, c, |s.rounds|, sent);
    assert m[c := m[c]] == m;
  }

  lemma PrefixGrows(a: seq<nat>, i: nat)
    requires i < |a| && forall j, k :: 0 <= j < k < |a| ==> a[j] != a[k]
    ensures a[..i + 1] == a[..i] + [a[i]] && a[i] !in a[..i]
  {
  }

  class Front {
    var order: seq<nat>               // client_list
    var clients: map<nat, Client>
    var rounds: seq<Round>
    ghost var known: set<nat>

    ghost predicate Valid()
      reads this
    {
      && (forall c :: c in order <==> c in clients)
      && (forall i, j :: 0 <= i < j < |order| ==> order[i] != order[j])
    }

    ghost function View(): State
      reads this
    {
      State(clients, rounds, known)
    }

    // One client of the list.
    method VisitClient(c: nat, sent: set<nat>, x: Round, skipped: nat, ghost s: State, ghost cs: seq<nat>)
      returns (x': Round, skipped': nat)
      requires Walked(s, cs, sent, |order|, clients, x, skipped) && c in s.clients && c !in cs
      requires |rounds| == |s.rounds| && (s.clients[c].onList <==> s.clients[c].inFlight.Some?)
      modifies this`clients
      ensures Walked(s, cs + [c], sent, |order|, clients, x', skipped')
    {
      x', skipped' := x, skipped;
      WalkOneMore(s, cs, sent, |order|, clients, x, skipped, c);
      if clients[c].onList {
        skipped' := skipped + 1;
      } else if clients[c].running {
        assert clients[c].inFlight.None?;
        clients := clients[c := Ask(clients[c], |rounds|, c in sent)];
        x' := x.(asked := x.asked + {c}, waiting := x.waiting + {c});
      } else {
        x' := x.(idle := x.idle + 1);
      }
    }

    // The walk over the client list: ask who can be asked, count who is busy.
    method Walk(sent: set<nat>) returns (x: Round, skipped: nat)
      requires Valid() && forall c :: c in clients ==> (clients[c].onList <==> clients[c].inFlight.Some?)
      modifies this`clients
      ensures Walked(old(View()), order, sent, |order|, clients, x, skipped)
    {
      ghost var s := View();
      x := Round(|order|, true, 0, {}, {}, 0, [], 0);
      skipped := 0;
      var i := 0;
      assert Walked(s, [], sent, |order|, clients, x, skipped);
      while i < |order|
        invariant 0 <= i <= |order|
        invariant Walked(s, order[..i], sent, |order|, clients, x, skipped)
      {
        PrefixGrows(order, i);
        x, skipped := VisitClient(order[i], sent, x, skipped, s, order[..i]);
        i := i + 1;
      }
      assert order[..i] == order;
    }

    /** request_client_etas: walk the client list asking who can be asked, then
        take the skipped ones off again. */
    method RequestEtas(sent: set<nat>)
      requires Valid() && Inv(View()) && order != [] && |order| < UINT_MOD
      modifies this`clients, this`rounds
      ensures Valid() && View() == Request(old(View()), sent) && Inv(View())
    {
      ghost var s := View();
      assert forall c :: c in clients ==> ClientOk(s, c);
      var x, skipped := Walk(sent);
      VisitedAll(s, order, sent);
      var y := CountDown(x, skipped);
      rounds := rounds + [y];
      RequestInv(s, sent);
    }

    // while (skipped--) …
    method CountDown(x: Round, skipped: nat) returns (y: Round)
      ensures y == DecBy(x, skipped)
    {
      y := x;
      var n := skipped;
      while n != 0
        invariant DecBy(x, skipped) == DecBy(y, n)
        decreases n
      {
        n := n - 1;
        y := Dec(y);
        if !y.live {
          break;
        }
      }
    }
  }
}
