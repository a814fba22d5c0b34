/** The client's demultiplexer, `get_msg` of `session_client.c`: replies and notifications arrive on one
    stream, and what a caller did not ask for is queued on the session. */
module Demux {
  import opened CText
  import opened Numerals
  import opened Sequences

  /** A reply with its `message-id` attribute, if it has one. */
  datatype Reply = Reply(messageId: Option<string>, body: string)
  datatype Notif = Notif(body: string)

  /** What a read from the wire gives. */
  datatype Item = AReply(reply: Reply) | ANotif(notif: Notif) | AHello | AnRpc | Blocked | Broken

  datatype Queues = Queues(notifs: seq<Notif>, replies: seq<Reply>)

  /** What `get_msg` returns: a message, or only the kind of a message that was queued, or no message. */
  datatype Result =
    | GotNotif(notif: Notif)
    | GotReply(reply: Reply)
    | WrongId(reply: Reply)
    | NotifQueued
    | ReplyQueued
    | WouldBlock
    | Failure

  /** A call: the id of the reply that is wanted (zero for a notification), whether the session has a
      notification thread, and what reading the wire would give if the call does so. */
  datatype Call = Call(msgid: nat, subscribed: bool, item: Item)

  function Checked(r: Reply, msgid: nat): Result {
    match r.messageId
    case None => GotReply(r)
    case Some(text) => if Strtoul(text) == msgid then GotReply(r) else WrongId(r)
  }

  /** Whether the call reads the wire. */
  predicate Reads(q: Queues, c: Call) {
    if c.msgid == 0 then q.notifs == [] else q.replies == []
  }

  function After(q: Queues, c: Call): Queues {
    if !Reads(q, c) then
      if c.msgid == 0 then q.(notifs := q.notifs[1..]) else q.(replies := q.replies[1..])
    else match c.item
      case AReply(r) => if c.msgid == 0 then q.(replies := q.replies + [r]) else q
      case ANotif(n) => if c.msgid != 0 && c.subscribed then q.(notifs := q.notifs + [n]) else q
      case _ => q
  }

  function Returned(q: Queues, c: Call): Result {
    if !Reads(q, c) then
      if c.msgid == 0 then GotNotif(q.notifs[0]) else Checked(q.replies[0], c.msgid)
    else match c.item
      case AReply(r) => if c.msgid == 0 then ReplyQueued else Checked(r, c.msgid)
      case ANotif(n) => if c.msgid == 0 then GotNotif(n) else if c.subscribed then NotifQueued else Failure
      case Blocked => WouldBlock
      case _ => Failure
  }

  /** The counter of ids after a request. */
  function Counted(msgid: nat, printed: bool): nat {
    if printed then (msgid + 1) % WORD else msgid
  }

  /** The client part of a session. */
  class Session {
    var notifs: seq<Notif>
    var replies: seq<Reply>
    var msgid: nat

    constructor ()
      ensures State() == Queues([], []) && msgid == 0
    {
      notifs, replies, msgid := [], [], 0;
    }

    function State(): Queues
      reads this
    {
      Queues(notifs, replies)
    }

    /** `get_msg` */
    method GetMsg(c: Call) returns (r: Result)
      modifies this`notifs, this`replies
      ensures State() == After(old(State()), c) && r == Returned(old(State()), c)
    {
      var item := c.item;
      if c.msgid == 0 && notifs != [] {
        item := ANotif(notifs[0]);
        notifs := notifs[1..];
      }
      if c.msgid != 0 && replies != [] {
        item := AReply(replies[0]);
        replies := replies[1..];
      }
      if c.msgid == 0 && item.AReply? {
        replies := replies + [item.reply];
      }
      if c.msgid != 0 && item.ANotif? {
        if !c.subscribed { return Failure; }
        notifs := notifs + [item.notif];
      }
      match item
      case ANotif(n) => r := if c.msgid == 0 then GotNotif(n) else NotifQueued;
      case AReply(rpl) => r := if c.msgid == 0 then ReplyQueued else Checked(rpl, c.msgid);
      case Blocked => r := WouldBlock;
      case _ => r := Failure;
    }

    /** Sending an RPC: the id in its text is the one that is returned. When printing the content fails, the counter
        stays. */
    method SendRpc(printed: bool) returns (sent: Option<(nat, string)>)
      modifies this`msgid
      ensures msgid == Counted(old(msgid), printed)
      ensures sent == if printed then Some((msgid, Numeral(msgid))) else None
    {
      var text := Numeral((msgid + 1) % WORD);
      if !printed { return None; }
      msgid := (msgid + 1) % WORD;
      sent := Some((msgid, text));
    }
  }

  /** What the result of a call tells of the queues: a message comes from the head of its queue or, when that is empty,
      from the wire; a message that was not asked for is the last one of its queue now; otherwise nothing has changed. */
  lemma ResultTells(q: Queues, c: Call)
    ensures var (r, q') := (Returned(q, c), After(q, c));
      match r
      case GotNotif(n) =>
        && c.msgid == 0 && q'.replies == q.replies
        && if q.notifs == [] then c.item == ANotif(n) && q'.notifs == [] else q.notifs == [n] + q'.notifs
      case NotifQueued =>
        && c.msgid != 0 && c.subscribed && q.replies == [] == q'.replies
        && c.item.ANotif? && q'.notifs == q.notifs + [c.item.notif]
      case ReplyQueued =>
        && c.msgid == 0 && q.notifs == [] == q'.notifs
        && c.item.AReply? && q'.replies == q.replies + [c.item.reply]
      case WouldBlock => q' == q && c.item.Blocked? && (if c.msgid == 0 then q.notifs == [] else q.replies == [])
      case Failure =>
        && q' == q && (if c.msgid == 0 then q.notifs == [] else q.replies == [])
        && (c.item.AHello? || c.item.AnRpc? || c.item.Broken? || (c.item.ANotif? && c.msgid != 0 && !c.subscribed))
      case _ =>
        && c.msgid != 0 && q'.notifs == q.notifs
        && if q.replies == [] then c.item == AReply(r.reply) && q'.replies == [] else q.replies == [r.reply] + q'.replies
  {
    hide Strtoul;
  }

  // ----- runs -----

  function Run(q: Queues, calls: seq<Call>): Queues {
    if calls == [] then q else After(Run(q, calls[..|calls| - 1]), calls[|calls| - 1])
  }

  /** The notifications that a call takes from the wire, in a sequence of at most one; and so on. */
  function NotifRead(q: Queues, c: Call): seq<Notif> {
    if Reads(q, c) && c.item.ANotif? then [c.item.notif] else []
  }

  function ReplyRead(q: Queues, c: Call): seq<Reply> {
    if Reads(q, c) && c.item.AReply? then [c.item.reply] else []
  }

  function NotifDelivered(q: Queues, c: Call): seq<Notif> {
    match Returned(q, c)
    case GotNotif(n) => [n]
    case _ => []
  }

  function ReplyDelivered(q: Queues, c: Call): seq<Reply> {
    match Returned(q, c)
    case GotReply(r) => [r]
    case WrongId(r) => [r]
    case _ => []
  }

  /** A notification that nobody waits for is dropped when the session has no notification thread. */
  predicate Drops(q: Queues, c: Call) {
    Reads(q, c) && c.item.ANotif? && c.msgid != 0 && !c.subscribed
  }

  function AllNotifsRead(q: Queues, calls: seq<Call>): seq<Notif> {
    if calls == [] then [] else
      var n := |calls| - 1;
      AllNotifsRead(q, calls[..n]) + NotifRead(Run(q, calls[..n]), calls[n])
  }

  function AllNotifsDelivered(q: Queues, calls: seq<Call>): seq<Notif> {
    if calls == [] then [] else
      var n := |calls| - 1;
      AllNotifsDelivered(q, calls[..n]) + NotifDelivered(Run(q, calls[..n]), calls[n])
  }

  function AllRepliesRead(q: Queues, calls: seq<Call>): seq<Reply> {
    if calls == [] then [] else
      var n := |calls| - 1;
      AllRepliesRead(q, calls[..n]) + ReplyRead(Run(q, calls[..n]), calls[n])
  }

  function AllRepliesDelivered(q: Queues, calls: seq<Call>): seq<Reply> {
    if calls == [] then [] else
      var n := |calls| - 1;
      AllRepliesDelivered(q, calls[..n]) + ReplyDelivered(Run(q, calls[..n]), calls[n])
  }

  function DropCount(q: Queues, calls: seq<Call>): nat {
    if calls == [] then 0 else
      var n := |calls| - 1;
      DropCount(q, calls[..n]) + if Drops(Run(q, calls[..n]), calls[n]) then 1 else 0
  }

  /** One call: what was queued and what it reads is what it delivers and what is queued then. */
  lemma CallConserves(q: Queues, c: Call)
    ensures ReplyDelivered(q, c) + After(q, c).replies == q.replies + ReplyRead(q, c)
    ensures !Drops(q, c) ==> NotifDelivered(q, c) + After(q, c).notifs == q.notifs + NotifRead(q, c)
    ensures Drops(q, c) ==>
      NotifDelivered(q, c) == [] && After(q, c).notifs == q.notifs && |NotifRead(q, c)| == 1
  {
    hide Strtoul;
  }

  /** Over every run of calls the replies come out in the order in which they were read. */
  lemma {:induction false} RepliesConserved(q: Queues, calls: seq<Call>)
    ensures AllRepliesDelivered(q, calls) + Run(q, calls).replies == q.replies + AllRepliesRead(q, calls)
  {
    hide ReplyDelivered, ReplyRead, After;
    if calls != [] {
      var n := |calls| - 1;
      var p := Run(q, calls[..n]);
      RepliesConserved(q, calls[..n]);
      CallConserves(p, calls[n]);
      var d, e := AllRepliesDelivered(q, calls[..n]), ReplyDelivered(p, calls[n]);
      Regroup(d, e, After(p, calls[n]).replies, p.replies, q.replies, AllRepliesRead(q, calls[..n]), ReplyRead(p, calls[n]));
    }
  }

  lemma Regroup<T>(d: seq<T>, e: seq<T>, after: seq<T>, before: seq<T>, q: seq<T>, r: seq<T>, x: seq<T>)
    requires d + before == q + r && e + after == before + x
    ensures (d + e) + after == q + (r + x)
  {
    assert (d + e) + after == d + (e + after);
    assert d + (before + x) == (d + before) + x;
    assert q + (r + x) == (q + r) + x;
  }

  /** Over every run of calls: notifications come out in the order in which they were read, none missing and
      none twice, if and only if none was dropped. */
  lemma {:induction false} NotifsConservedIff(q: Queues, calls: seq<Call>)
    ensures AllNotifsDelivered(q, calls) + Run(q, calls).notifs == q.notifs + AllNotifsRead(q, calls)
       <==> DropCount(q, calls) == 0
    ensures |AllNotifsDelivered(q, calls)| + |Run(q, calls).notifs| + DropCount(q, calls)
         == |q.notifs| + |AllNotifsRead(q, calls)|
  {
    hide NotifDelivered, NotifRead, After, Drops;
    if calls != [] {
      var n := |calls| - 1;
      var p, c := Run(q, calls[..n]), calls[n];
      NotifsConservedIff(q, calls[..n]);
      CallConserves(p, c);
      if DropCount(q, calls) == 0 {
        Regroup(AllNotifsDelivered(q, calls[..n]), NotifDelivered(p, c), After(p, c).notifs, p.notifs,
                q.notifs, AllNotifsRead(q, calls[..n]), NotifRead(p, c));
      }
      Lengths(NotifDelivered(p, c), After(p, c).notifs, p.notifs, NotifRead(p, c), Drops(p, c));
    }
  }

  lemma Lengths<T>(e: seq<T>, after: seq<T>, before: seq<T>, x: seq<T>, dropped: bool)
    requires if dropped then e == [] && after == before && |x| == 1 else e + after == before + x
    ensures |e| + |after| + (if dropped then 1 else 0) == |before| + |x|
  {
    if !dropped { assert |e + after| == |before + x|; }
  }

  // ----- a session with a notification thread -----

  const NOTHING := Queues([], [])

  /** A call without what it will find on the wire. */
  datatype Ask = Ask(msgid: nat, subscribed: bool)

  function CallsOf(asks: seq<Ask>, items: seq<Item>): seq<Call>
    requires |asks| == |items|
  {
    seq(|asks|, i requires 0 <= i < |asks| => Call(asks[i].msgid, asks[i].subscribed, items[i]))
  }

  ghost predicate Conserved(calls: seq<Call>) {
    AllNotifsDelivered(NOTHING, calls) + Run(NOTHING, calls).notifs == AllNotifsRead(NOTHING, calls)
  }

  /** Whoever waits for a reply does so with a notification thread at hand. */
  predicate AllSubscribed(asks: seq<Ask>) {
    forall i :: 0 <= i < |asks| && asks[i].msgid != 0 ==> asks[i].subscribed
  }

  lemma {:induction false} NoneDropped(q: Queues, calls: seq<Call>)
    requires forall i :: 0 <= i < |calls| && calls[i].msgid != 0 ==> calls[i].subscribed
    ensures DropCount(q, calls) == 0
  {
    if calls != [] {
      NoneDropped(q, calls[..|calls| - 1]);
    }
  }

  lemma {:induction false} DropsStay(q: Queues, calls: seq<Call>, n: nat)
    requires n <= |calls|
    ensures DropCount(q, calls[..n]) <= DropCount(q, calls)
  {
    if n < |calls| {
      DropsStay(q, calls[..|calls| - 1], n);
      assert calls[..|calls| - 1][..n] == calls[..n];
    } else {
      assert calls[..n] == calls;
    }
  }

  /** Calls that find nothing leave nothing. */
  lemma {:induction false} NothingHappens(calls: seq<Call>)
    requires forall i :: 0 <= i < |calls| ==> calls[i].item == Blocked
    ensures Run(NOTHING, calls) == NOTHING
  {
    if calls != [] {
      NothingHappens(calls[..|calls| - 1]);
    }
  }

  lemma ConservedIff(calls: seq<Call>)
    ensures Conserved(calls) <==> DropCount(NOTHING, calls) == 0
  {
    NotifsConservedIff(NOTHING, calls);
    assert [] + AllNotifsRead(NOTHING, calls) == AllNotifsRead(NOTHING, calls);
  }

  /** Where one caller waits for a reply without a notification thread, a notification can be lost. */
  lemma CanLose(asks: seq<Ask>, k: nat) returns (items: seq<Item>)
    requires k < |asks| && asks[k].msgid != 0 && !asks[k].subscribed
    ensures |items| == |asks| && !Conserved(CallsOf(asks, items))
  {
    items := seq(|asks|, i => if i == k then ANotif(Notif("")) else Blocked);
    var calls := CallsOf(asks, items);
    NothingHappens(calls[..k]);
    assert Drops(NOTHING, calls[k]);
    assert calls[..k + 1][..k] == calls[..k] && calls[..k + 1][k] == calls[k];
    DropsStay(NOTHING, calls, k + 1);
    ConservedIff(calls);
  }

  /** Whatever comes on the wire, notifications come out in the order in which they were read, none missing and none
      twice, if and only if every call for a reply is made on a session with a notification thread. */
  lemma SubscribedIff(asks: seq<Ask>)
    ensures AllSubscribed(asks)
       <==> forall items: seq<Item> :: |items| == |asks| ==> Conserved(CallsOf(asks, items))
  {
    hide Conserved;
    if AllSubscribed(asks) {
      forall items: seq<Item> | |items| == |asks| ensures Conserved(CallsOf(asks, items)) {
        NoneDropped(NOTHING, CallsOf(asks, items));
        ConservedIff(CallsOf(asks, items));
      }
    } else {
      var k :| 0 <= k < |asks| && asks[k].msgid != 0 && !asks[k].subscribed;
      var items := CanLose(asks, k);
    }
  }

  // ----- replies and requests -----

  /** What a client does: it sends requests, of which some cannot be printed, and it calls for messages. */
  datatype Act = Send(printed: bool) | Receive(call: Call)

  /** The counter, the ids that the sends have returned, and the calls made. */
  datatype Talk = Talk(counter: nat, sent: seq<nat>, calls: seq<Call>)

  function Played(t: Talk, a: Act): Talk {
    match a
    case Send(printed) =>
      var id := Counted(t.counter, printed);
      Talk(id, if printed then t.sent + [id] else t.sent, t.calls)
    case Receive(c) => t.(calls := t.calls + [c])
  }

  function Play(acts: seq<Act>): Talk {
    if acts == [] then Talk(0, [], []) else Played(Play(acts[..|acts| - 1]), acts[|acts| - 1])
  }

  function Delivered(t: Talk): nat {
    |AllRepliesDelivered(NOTHING, t.calls)|
  }

  /** At no time has the server answered more than the requests it was sent, and it has answered them in their order
      (section 4.5 of RFC 6241). */
  ghost predicate ServerInOrder(acts: seq<Act>) {
    forall n :: 0 <= n <= |acts| ==> AnswersRequests(Play(acts[..n]))
  }

  predicate AnswersRequests(t: Talk) {
    var replies := AllRepliesRead(NOTHING, t.calls);
    && |replies| <= |t.sent|
    && forall j :: 0 <= j < |replies| ==> replies[j].messageId == Some(Numeral(t.sent[j]))
  }

  /** The client asks for the replies in the order of its requests. */
  predicate AsksNext(t: Talk, c: Call) {
    c.msgid != 0 ==> Delivered(t) < |t.sent| && c.msgid == t.sent[Delivered(t)]
  }

  /** The number of requests that could be printed. */
  function Requests(acts: seq<Act>): nat {
    if acts == [] then 0
    else Requests(acts[..|acts| - 1]) + if acts[|acts| - 1] == Send(true) then 1 else 0
  }

  /** Over every history ids count up from 1, one for each request that could be printed, modulo 2^64. */
  lemma {:induction false} IdsCountUp(acts: seq<Act>)
    ensures |Play(acts).sent| == Requests(acts) && Play(acts).counter == Requests(acts) % WORD
    ensures forall j :: 0 <= j < |Play(acts).sent| ==> Play(acts).sent[j] == (j + 1) % WORD
  {
    if acts != [] {
      IdsCountUp(acts[..|acts| - 1]);
      CountOne(Requests(acts[..|acts| - 1]));
    }
  }

  lemma CountOne(n: nat)
    ensures (n % WORD + 1) % WORD == (n + 1) % WORD
  {
  }

  /** No id is zero, which would ask for a notification, and no two are the same. */
  ghost predicate TellApart(ids: seq<nat>) {
    Distinct(ids) && forall j :: 0 <= j < |ids| ==> ids[j] != 0
  }

  /** Ids tell the requests of a history apart if and only if there are fewer than 2^64 of them. */
  lemma IdsTellApartIff(acts: seq<Act>)
    ensures TellApart(Play(acts).sent) <==> Requests(acts) < WORD
  {
    hide Play, Requests;
    IdsCountUp(acts);
    if Requests(acts) >= WORD {
      assert Play(acts).sent[WORD - 1] == 0;
    }
  }

  /** So below that number the text of an id belongs to one request only. */
  lemma IdAnswersOne(acts: seq<Act>, j: nat, k: nat)
    requires Requests(acts) < WORD && j < |Play(acts).sent| && k < |Play(acts).sent|
    requires Numeral(Play(acts).sent[j]) == Numeral(Play(acts).sent[k])
    ensures j == k
  {
    hide Play, Numeral, Requests;
    NumeralInjective(Play(acts).sent[j], Play(acts).sent[k]);
    IdsTellApartIff(acts);
  }

  /** In a session's life, whatever was sent, could not be sent, was read or asked for before: a reply that a call
      delivers carries the id that the send returned whose reply was asked for. */
  lemma ReplyAnswersRequest(acts: seq<Act>, n: nat)
    requires ServerInOrder(acts) && n < |acts| && acts[n].Receive? && acts[n].call.msgid != 0
    requires AsksNext(Play(acts[..n]), acts[n].call)
    ensures var t := Play(acts[..n]);
      match Returned(Run(NOTHING, t.calls), acts[n].call)
      case GotReply(r) => Delivered(t) < |t.sent| && r.messageId == Some(Numeral(t.sent[Delivered(t)]))
      case WrongId(_) => false
      case _ => true
  {
    hide Strtoul, Numeral, Played;
    var t, c := Play(acts[..n]), acts[n].call;
    var calls := t.calls + [c];
    assert Play(acts[..n + 1]).calls == calls && Play(acts[..n + 1]).sent == t.sent by { OneMoreCall(acts, n); }
    assert AnswersRequests(Play(acts[..n + 1]));
    DeliversNext(t.calls, c, t.sent);
    IdsCountUp(acts[..n]);
    IdRead(c.msgid);
  }

  lemma OneMoreCall(acts: seq<Act>, n: nat)
    requires n < |acts| && acts[n].Receive?
    ensures Play(acts[..n + 1]).calls == Play(acts[..n]).calls + [acts[n].call]
    ensures Play(acts[..n + 1]).sent == Play(acts[..n]).sent
  {
    assert acts[..n + 1][..n] == acts[..n];
  }

  lemma IdRead(msgid: nat)
    requires msgid < WORD
    ensures Strtoul(Numeral(msgid)) == msgid
  {
    StrtoulOfNumeral(msgid, "");
    assert Numeral(msgid) + "" == Numeral(msgid);
  }

  lemma NextDelivered<T>(d: seq<T>, e: seq<T>, queue: seq<T>, read: seq<T>)
    requires (d + e) + queue == read && |e| == 1
    ensures |d| < |read| && read[|d|] == e[0]
  {
    assert ((d + e) + queue)[|d|] == e[0];
  }

  /** The reply that a call delivers is the one that was read after as many as were delivered before. */
  lemma DeliversNext(before: seq<Call>, c: Call, sent: seq<nat>)
    requires var read := AllRepliesRead(NOTHING, before + [c]);
      |read| <= |sent| && forall j :: 0 <= j < |read| ==> read[j].messageId == Some(Numeral(sent[j]))
    ensures var e := ReplyDelivered(Run(NOTHING, before), c);
      |e| == 1 ==>
        var k := |AllRepliesDelivered(NOTHING, before)|;
        k < |sent| && e[0].messageId == Some(Numeral(sent[k]))
  {
    hide Strtoul, Numeral;
    var calls := before + [c];
    assert calls[..|before|] == before;
    RepliesConserved(NOTHING, calls);
    var e, read := ReplyDelivered(Run(NOTHING, before), c), AllRepliesRead(NOTHING, calls);
    if |e| == 1 {
      assert [] + read == read;
      NextDelivered(AllRepliesDelivered(NOTHING, before), e, Run(NOTHING, calls).replies, read);
    }
  }

  /** After any calls and whatever order the server answers in: a call for a reply delivers the next reply that was read,
      and takes it for the one asked for if and only if it carries that id. */
  lemma NextReplyChecked(calls: seq<Call>, c: Call, id: nat)
    requires c.msgid != 0 && id < WORD
    ensures var (k, read) := (|AllRepliesDelivered(NOTHING, calls)|, AllRepliesRead(NOTHING, calls + [c]));
      var r := Returned(Run(NOTHING, calls), c);
      if k < |read| then
        && (r == GotReply(read[k]) || r == WrongId(read[k]))
        && (read[k].messageId == Some(Numeral(id)) ==> (r == GotReply(read[k]) <==> id == c.msgid))
        && (read[k].messageId == None ==> r == GotReply(read[k]))
      else
        !r.GotReply? && !r.WrongId? && |read| == k
  {
    hide Strtoul, Numeral, Returned, Run, AllRepliesDelivered, AllRepliesRead, NOTHING;
    NextReplyFound(calls, c);
    IdRead(id);
    DeliveredIsChecked(Run(NOTHING, calls), c);
  }

  lemma DeliveredIsChecked(q: Queues, c: Call)
    requires c.msgid != 0
    ensures var (e, r) := (ReplyDelivered(q, c), Returned(q, c));
      |e| <= 1 && (|e| == 1 ==> r == Checked(e[0], c.msgid)) && (|e| == 0 ==> !r.GotReply? && !r.WrongId?)
  {
    hide Strtoul;
  }

  /** The reply that a call delivers is the next one read; when it delivers none there is none. */
  lemma NextReplyFound(calls: seq<Call>, c: Call)
    requires c.msgid != 0
    ensures var (k, read) := (|AllRepliesDelivered(NOTHING, calls)|, AllRepliesRead(NOTHING, calls + [c]));
      var e := ReplyDelivered(Run(NOTHING, calls), c);
      if |e| == 1 then k < |read| && read[k] == e[0] else |read| == k
  {
    hide Returned, ReplyDelivered;
    assert (calls + [c])[..|calls|] == calls;
    RepliesConserved(NOTHING, calls + [c]);
    var read := AllRepliesRead(NOTHING, calls + [c]);
    var e := ReplyDelivered(Run(NOTHING, calls), c);
    assert [] + read == read;
    if |e| == 1 {
      NextDelivered(AllRepliesDelivered(NOTHING, calls), e, Run(NOTHING, calls + [c]).replies, read);
    } else {
      NothingDelivered(calls, c);
    }
  }

  /** A call for a reply that delivers none has found none. */
  lemma NothingDelivered(calls: seq<Call>, c: Call)
    requires c.msgid != 0 && |ReplyDelivered(Run(NOTHING, calls), c)| != 1
    ensures |AllRepliesRead(NOTHING, calls + [c])| == |AllRepliesDelivered(NOTHING, calls)|
  {
    hide Strtoul;
    assert (calls + [c])[..|calls|] == calls;
    RepliesConserved(NOTHING, calls);
    assert [] + AllRepliesRead(NOTHING, calls) == AllRepliesRead(NOTHING, calls);
    assert Run(NOTHING, calls).replies == [];
  }

  /** What the calls return, one after the other. */
  function Results(calls: seq<Call>): seq<Result> {
    if calls == [] then []
    else
      var n := |calls| - 1;
      Results(calls[..n]) + [Returned(Run(NOTHING, calls[..n]), calls[n])]
  }

  lemma OneMoreResult(calls: seq<Call>, c: Call)
    ensures Results(calls + [c]) == Results(calls) + [Returned(Run(NOTHING, calls), c)]
    ensures Run(NOTHING, calls + [c]) == After(Run(NOTHING, calls), c)
  {
    hide Returned, After;
    assert (calls + [c])[..|calls|] == calls;
  }

  /** The same talk with a session: its sends return the ids that `Play` counts, and its calls what `Returned` says. */
  method Converse(acts: seq<Act>) returns (ids: seq<nat>, results: seq<Result>)
    ensures ids == Play(acts).sent && results == Results(Play(acts).calls)
  {
    hide Returned, After, Results, Run;
    var session := new Session();
    ids, results := [], [];
    var n := 0;
    assert acts[..0] == [];
    NoResults();
    while n < |acts|
      invariant n <= |acts| && session.msgid == Play(acts[..n]).counter && ids == Play(acts[..n]).sent
      invariant session.State() == Run(NOTHING, Play(acts[..n]).calls) && results == Results(Play(acts[..n]).calls)
    {
      assert acts[..n + 1][..n] == acts[..n];
      match acts[n] {
        case Send(printed) =>
          var sent := session.SendRpc(printed);
          if sent.Some? { ids := ids + [sent.value.0]; }
        case Receive(c) =>
          OneMoreResult(Play(acts[..n]).calls, c);
          var r := session.GetMsg(c);
          results := results + [r];
      }
      n := n + 1;
    }
    assert acts[..|acts|] == acts;
  }

  lemma NoResults()
    ensures Results([]) == [] && Run(NOTHING, []) == NOTHING
  {
  }
}
