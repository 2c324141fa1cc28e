/**
 Topic discovery through two stacked caches.  The Kafka client remembers topics it has
 seen and asks the broker about any other at most every CHECK_INTERVAL seconds; the topic
 metadata manager keeps its own verdicts and asks the client at most once per interval.
 */
module TopicDiscovery {
  type Topic = string

  /** `_topic_check_interval` of the client, in seconds. */
  const CHECK_INTERVAL := 5.0

  /** What listing the broker's topics says about one topic. */
  datatype Answer = Present | Absent | Failed

  /**
   One check and the clock during it: when the manager starts, when the client compares
   with its last check, when it stamps the new one, and when the broker's answer is taken.
   `direct` checks go to the client alone, as those of `produce` do.
   */
  datatype Check = Check(topic: Topic, direct: bool, start: real, compared: real, stamped: real, queried: real,
    answer: Answer)

  predicate Timely(e: Check) {
    e.start <= e.compared <= e.stamped <= e.queried
  }

  datatype Client = Client(known: set<Topic>, lastCheck: map<Topic, real>)

  /** The client neither knows the topic nor has asked about it recently. */
  predicate ClientAsks(c: Client, e: Check) {
    e.topic !in c.known && !(e.topic in c.lastCheck && e.compared - c.lastCheck[e.topic] < CHECK_INTERVAL)
  }

  function Verified(c: Client, e: Check): (Client, bool) {
    if ClientAsks(c, e) then
      (Client(if e.answer == Present then c.known + {e.topic} else c.known, c.lastCheck[e.topic := e.stamped]),
        e.answer == Present)
    else (c, e.topic in c.known)
  }

  datatype Manager = Manager(existence: map<Topic, bool>, lastCheck: map<Topic, real>, client: Client)

  predicate ThinksExists(m: Manager, t: Topic) {
    t in m.existence && m.existence[t]
  }

  /** The manager passes the check on to the client. */
  predicate ManagerAsks(interval: real, m: Manager, e: Check) {
    !ThinksExists(m, e.topic) && !(e.topic in m.lastCheck && e.start - m.lastCheck[e.topic] < interval)
  }

  function Checked(interval: real, m: Manager, e: Check): (Manager, bool) {
    if ManagerAsks(interval, m, e) then
      var (client, exists_) := Verified(m.client, e);
      (Manager(m.existence[e.topic := exists_], m.lastCheck[e.topic := e.start], client), exists_)
    else (m, ThinksExists(m, e.topic))
  }

  // ----- the two objects ---------------------------------------------------

  class KafkaClientWrapper {
    var knownTopics: set<Topic>
    var lastTopicCheck: map<Topic, real>

    constructor ()
      ensures Contents() == Client({}, map[])
    {
      knownTopics, lastTopicCheck := {}, map[];
    }

    function Contents(): Client
      reads this
    {
      Client(knownTopics, lastTopicCheck)
    }

    /** `_verify_topic_exists` */
    method VerifyTopicExists(e: Check) returns (r: bool)
      modifies this
      ensures (Contents(), r) == Verified(old(Contents()), e)
    {
      var topic := e.topic;
      if topic in knownTopics {
        return true;
      }
      if topic in lastTopicCheck {
        var timeSinceCheck := e.compared - lastTopicCheck[topic];
        if timeSinceCheck < CHECK_INTERVAL {
          return false;
        }
      }
      lastTopicCheck := lastTopicCheck[topic := e.stamped];
      match e.answer
      case Failed => return false;
      case Absent => return false;
      case Present =>
        knownTopics := knownTopics + {topic};
        return true;
    }
  }

  class TopicMetadataManager {
    const kafkaClient: KafkaClientWrapper?
    const topicCheckInterval: real
    var topicExistence: map<Topic, bool>
    var topicLastCheck: map<Topic, real>

    constructor (kafkaClient: KafkaClientWrapper?, topicCheckInterval: real)
      ensures this.kafkaClient == kafkaClient && this.topicCheckInterval == topicCheckInterval
      ensures kafkaClient != null ==> Contents() == Manager(map[], map[], kafkaClient.Contents())
    {
      this.kafkaClient, this.topicCheckInterval := kafkaClient, topicCheckInterval;
      topicExistence, topicLastCheck := map[], map[];
    }

    function Contents(): Manager
      requires kafkaClient != null
      reads this, kafkaClient
    {
      Manager(topicExistence, topicLastCheck, kafkaClient.Contents())
    }

    method CheckTopicExists(e: Check) returns (r: bool)
      modifies this, kafkaClient
      ensures kafkaClient == null ==> !r && unchanged(this)
      ensures kafkaClient != null ==> (Contents(), r) == Checked(topicCheckInterval, old(Contents()), e)
    {
      if kafkaClient == null {
        return false;
      }
      var topic := e.topic;
      var currentTime := e.start;
      if topic in topicExistence && topicExistence[topic] {
        return true;
      }
      if topic in topicLastCheck {
        var lastCheck := topicLastCheck[topic];
        if currentTime - lastCheck < topicCheckInterval {
          return false;
        }
      }
      r := kafkaClient.VerifyTopicExists(e);
      topicExistence := topicExistence[topic := r];
      topicLastCheck := topicLastCheck[topic := currentTime];
    }

    /** `get_existing_topics`: one check per known topic, in the order the set yields them. */
    method GetExistingTopics(checks: seq<Check>) returns (existing: set<Topic>)
      modifies this, kafkaClient
      ensures kafkaClient == null ==> existing == {}
      ensures kafkaClient != null ==>
        && Contents() == After(topicCheckInterval, old(Contents()), checks)
        && existing == Found(topicCheckInterval, old(Contents()), checks)
    {
      existing := {};
      for i := 0 to |checks|
        invariant kafkaClient == null ==> existing == {}
        invariant kafkaClient != null ==>
          && Contents() == After(topicCheckInterval, old(Contents()), checks[..i])
          && existing == Found(topicCheckInterval, old(Contents()), checks[..i])
      {
        assert checks[..i + 1][..i] == checks[..i];
        var r := CheckTopicExists(checks[i]);
        if r {
          existing := existing + {checks[i].topic};
        }
      }
      assert checks[..|checks|] == checks;
    }
  }

  // ----- histories of checks -----------------------------------------------

  /** One check, direct or through the manager. */
  function Act(interval: real, m: Manager, e: Check): (Manager, bool) {
    if e.direct then
      var (client, r) := Verified(m.client, e); (m.(client := client), r)
    else Checked(interval, m, e)
  }

  /** The manager after checks that all go through it. */
  function After(interval: real, m: Manager, checks: seq<Check>): Manager {
    if checks == [] then m
    else Checked(interval, After(interval, m, checks[..|checks| - 1]), checks[|checks| - 1]).0
  }

  function Found(interval: real, m: Manager, checks: seq<Check>): set<Topic> {
    if checks == [] then {}
    else
      var most, e := checks[..|checks| - 1], checks[|checks| - 1];
      Found(interval, m, most) + if Checked(interval, After(interval, m, most), e).1 then {e.topic} else {}
  }

  function Run(interval: real, checks: seq<Check>): Manager {
    if checks == [] then Manager(map[], map[], Client({}, map[]))
    else Act(interval, Run(interval, checks[..|checks| - 1]), checks[|checks| - 1]).0
  }

  /** What the check `e` says after the checks `before`. */
  predicate Says(interval: real, before: seq<Check>, e: Check) {
    Act(interval, Run(interval, before), e).1
  }

  /** From time `born` on, every query finds the topic. */
  predicate FindsFrom(e: Check, topic: Topic, born: real) {
    e.topic == topic ==> Timely(e) && (e.queried >= born ==> e.answer == Present)
  }

  predicate AllFindFrom(checks: seq<Check>, topic: Topic, born: real) {
    forall i | 0 <= i < |checks| :: FindsFrom(checks[i], topic, born)
  }

  /** Negative verdicts about the topic are old: no stamp is far behind its creation. */
  predicate OldNews(m: Manager, topic: Topic, born: real) {
    && (topic !in m.client.known && topic in m.client.lastCheck ==> m.client.lastCheck[topic] < born)
    && (!ThinksExists(m, topic) && topic in m.lastCheck ==> m.lastCheck[topic] < born + CHECK_INTERVAL)
  }

  lemma ActOldNews(interval: real, m: Manager, e: Check, topic: Topic, born: real)
    requires OldNews(m, topic, born) && FindsFrom(e, topic, born)
    ensures OldNews(Act(interval, m, e).0, topic, born)
  {
  }

  lemma {:induction false} RunOldNews(interval: real, checks: seq<Check>, topic: Topic, born: real)
    requires AllFindFrom(checks, topic, born)
    ensures OldNews(Run(interval, checks), topic, born)
  {
    if checks == [] {
    } else {
      var last := |checks| - 1;
      RunOldNews(interval, checks[..last], topic, born);
      ActOldNews(interval, Run(interval, checks[..last]), checks[last], topic, born);
    }
  }

  /** How many seconds a verdict can be wrong: the client's interval, and then the manager's if it is above zero. */
  function Bound(interval: real): real {
    5.0 + if interval > 0.0 then interval else 0.0
  }

  /**
   A topic that every query finds from time `born` on is reported by every check that
   starts at or after `born + 5 + interval`, whatever was asked before.
   */
  lemma BoundedDiscovery(interval: real, before: seq<Check>, e: Check, born: real)
    requires AllFindFrom(before, e.topic, born) && FindsFrom(e, e.topic, born)
    requires e.start >= born + Bound(interval)
    ensures Says(interval, before, e)
  {
    RunOldNews(interval, before, e.topic, born);
  }

  // ----- the bound cannot be improved --------------------------------------

  /** One check after the other. */
  predicate Sequential(checks: seq<Check>) {
    forall i, j | 0 <= i < j < |checks| :: checks[i].queried <= checks[j].start
  }

  /** The promise that checks `delay` seconds after the creation succeed. */
  predicate Punctual(interval: real, delay: real, before: seq<Check>, e: Check, born: real) {
    (AllFindFrom(before + [e], e.topic, born) && Sequential(before + [e]) && e.start >= born + delay) ==>
      Says(interval, before, e)
  }

  /** A check of a topic that is created at time 0. */
  function Instant(direct: bool, at: real): Check {
    Check("t", direct, at, at, at, at, if at < 0.0 then Absent else Present)
  }

  lemma Late(interval: real, delay: real) returns (before: seq<Check>, e: Check)
    requires delay < Bound(interval)
    ensures !Punctual(interval, delay, before, e, 0.0)
  {
    if interval > 0.0 {
      before, e := LateByManager(interval, delay);
    } else {
      before, e := LateByClient(interval, delay);
    }
  }

  /** The client has just found nothing, and the manager does not wait. */
  lemma LateByClient(interval: real, delay: real) returns (before: seq<Check>, e: Check)
    requires delay < CHECK_INTERVAL && interval <= 0.0
    ensures !Punctual(interval, delay, before, e, 0.0)
  {
    var gap := (CHECK_INTERVAL - delay) / 4.0;
    var eps := if gap < 1.0 then gap else 1.0;
    var a := Instant(true, -eps);
    before, e := [a], Instant(false, CHECK_INTERVAL - 2.0 * eps);
    assert before[..0] == [];
    var m := Run(interval, before);
    assert m == Act(interval, Run(interval, []), a).0;
    assert !ClientAsks(m.client, e);
    assert !Says(interval, before, e);
    assert before + [e] == [a, e];
  }

  /** The client still did not ask when the manager asked it last. */
  lemma LateByManager(interval: real, delay: real) returns (before: seq<Check>, e: Check)
    requires interval > 0.0 && delay < CHECK_INTERVAL + interval
    ensures !Punctual(interval, delay, before, e, 0.0)
  {
    var gap := (CHECK_INTERVAL + interval - delay) / 4.0;
    var eps := if gap < interval && gap < 5.0 then gap else if interval < 5.0 then interval else 5.0;
    var a, b := Instant(true, -eps), Instant(false, CHECK_INTERVAL - 2.0 * eps);
    before, e := [a, b], Instant(false, CHECK_INTERVAL + interval - 3.0 * eps);
    assert before[..1] == [a] && [a][..0] == [];
    var m0, m1 := Run(interval, []), Run(interval, [a]);
    assert m1 == Act(interval, m0, a).0;
    assert m0.client.lastCheck["t" := -eps] == map["t" := -eps];
    var m2 := Run(interval, before);
    assert m2 == Act(interval, m1, b).0;
    assert !ClientAsks(m1.client, b);
    assert m2 == Manager(map["t" := false], map["t" := b.start], m1.client);
    assert !ManagerAsks(interval, m2, e);
    assert !Says(interval, before, e);
    assert before + [e] == [a, b, e];
  }

  /** The delay of discovery is that bound, and not less. */
  lemma DiscoveryDelayIsExact(interval: real, delay: real)
    ensures (forall before, e, born :: Punctual(interval, delay, before, e, born)) <==> delay >= Bound(interval)
  {
    if delay >= Bound(interval) {
      forall before, e, born
        ensures Punctual(interval, delay, before, e, born)
      {
        var all: seq<Check> := before + [e];
        if AllFindFrom(all, e.topic, born) && e.start >= born + delay {
          assert all[|before|] == e && all[..|before|] == before;
          assert forall i | 0 <= i < |before| :: before[i] == all[i];
          BoundedDiscovery(interval, before, e, born);
        }
      }
    } else {
      var before, e := Late(interval, delay);
      assert !Punctual(interval, delay, before, e, 0.0);
    }
  }

  // ----- positive answers --------------------------------------------------

  /** The check really reaches the broker. */
  predicate Asks(interval: real, m: Manager, e: Check) {
    (e.direct || ManagerAsks(interval, m, e)) && ClientAsks(m.client, e)
  }

  /** In check `i` the broker confirmed the topic. */
  predicate ConfirmedBy(interval: real, checks: seq<Check>, topic: Topic, i: nat) {
    i < |checks| && checks[i].topic == topic && checks[i].answer == Present
      && Asks(interval, Run(interval, checks[..i]), checks[i])
  }

  ghost predicate Confirmed(interval: real, checks: seq<Check>, topic: Topic) {
    exists i :: ConfirmedBy(interval, checks, topic, i)
  }

  lemma ConfirmedStep(interval: real, checks: seq<Check>, topic: Topic)
    requires checks != []
    ensures Confirmed(interval, checks, topic) <==>
      Confirmed(interval, checks[..|checks| - 1], topic) || ConfirmedBy(interval, checks, topic, |checks| - 1)
  {
    var most := checks[..|checks| - 1];
    assert forall i: nat | i < |most| :: most[..i] == checks[..i];
    assert forall i: nat | i < |most| :: ConfirmedBy(interval, most, topic, i) <==>
      ConfirmedBy(interval, checks, topic, i);
  }

  /** The client knows exactly the topics the broker has confirmed; the manager reports no others. */
  lemma {:induction false} KnownAreConfirmed(interval: real, checks: seq<Check>, topic: Topic)
    ensures topic in Run(interval, checks).client.known <==> Confirmed(interval, checks, topic)
    ensures ThinksExists(Run(interval, checks), topic) ==> Confirmed(interval, checks, topic)
  {
    if checks == [] {
    } else {
      KnownAreConfirmed(interval, checks[..|checks| - 1], topic);
      ConfirmedStep(interval, checks, topic);
    }
  }

  /** No positive answer without a confirmation by the broker, now or earlier. */
  lemma PositiveNeedsConfirmation(interval: real, before: seq<Check>, e: Check)
    requires Says(interval, before, e)
    ensures Confirmed(interval, before + [e], e.topic)
  {
    var all := before + [e];
    assert all[..|all| - 1] == before;
    KnownAreConfirmed(interval, before, e.topic);
    ConfirmedStep(interval, all, e.topic);
  }

  /** The topic has been reported once and for all: by the client, or even by the manager. */
  predicate Settled(m: Manager, topic: Topic, direct: bool) {
    topic in m.client.known && (direct || ThinksExists(m, topic))
  }

  lemma {:induction false} StaysSettled(interval: real, m: Manager, checks: seq<Check>, topic: Topic, direct: bool,
      from: seq<Check>)
    requires m == Run(interval, from) && Settled(m, topic, direct)
    ensures Settled(Run(interval, from + checks), topic, direct)
  {
    if checks == [] {
      assert from + checks == from;
    } else {
      var most := checks[..|checks| - 1];
      StaysSettled(interval, m, most, topic, direct, from);
      assert (from + checks)[..|from + checks| - 1] == from + most;
    }
  }

  lemma SaysSettles(interval: real, before: seq<Check>, e: Check)
    requires Says(interval, before, e)
    ensures Settled(Run(interval, before + [e]), e.topic, e.direct)
  {
    var all := before + [e];
    assert all[..|all| - 1] == before;
    KnownAreConfirmed(interval, before, e.topic);
    KnownAreConfirmed(interval, all, e.topic);
  }

  /**
   A positive answer is never withdrawn: what the manager has reported, every later check
   reports; what the client has reported, every later direct check reports.
   */
  lemma NeverWithdrawn(interval: real, before: seq<Check>, e: Check, between: seq<Check>, e': Check)
    requires Says(interval, before, e) && e'.topic == e.topic && (e.direct ==> e'.direct)
    ensures Says(interval, before + [e] + between, e')
  {
    SaysSettles(interval, before, e);
    StaysSettled(interval, Run(interval, before + [e]), between, e.topic, e.direct, before + [e]);
  }

  // ----- scans -------------------------------------------------------------

  lemma {:induction false} ScanIsRun(interval: real, before: seq<Check>, checks: seq<Check>)
    requires forall i | 0 <= i < |checks| :: !checks[i].direct
    ensures After(interval, Run(interval, before), checks) == Run(interval, before + checks)
  {
    if checks == [] {
      assert before + checks == before;
    } else {
      var most := checks[..|checks| - 1];
      ScanIsRun(interval, before, most);
      assert (before + checks)[..|before + checks| - 1] == before + most;
    }
  }

  lemma {:induction false} ScanFinds(interval: real, before: seq<Check>, checks: seq<Check>, i: nat)
    requires i < |checks| && forall j | 0 <= j < |checks| :: !checks[j].direct
    requires Says(interval, before + checks[..i], checks[i])
    ensures checks[i].topic in Found(interval, Run(interval, before), checks)
  {
    var most := checks[..|checks| - 1];
    if i == |most| {
      ScanIsRun(interval, before, most);
    } else {
      assert most[..i] == checks[..i];
      ScanFinds(interval, before, most, i);
    }
  }

  lemma {:induction false} ScanFindsConfirmed(interval: real, before: seq<Check>, checks: seq<Check>, t: Topic)
    requires forall i | 0 <= i < |checks| :: !checks[i].direct
    requires t in Found(interval, Run(interval, before), checks)
    ensures Confirmed(interval, before + checks, t)
  {
    var most, e := checks[..|checks| - 1], checks[|checks| - 1];
    ScanIsRun(interval, before, most);
    var all := before + checks;
    assert all[..|all| - 1] == before + most && all == before + most + [e];
    if t in Found(interval, Run(interval, before), most) {
      ScanFindsConfirmed(interval, before, most, t);
      ConfirmedStep(interval, all, t);
    } else {
      PositiveNeedsConfirmation(interval, before + most, e);
    }
  }

  /**
   `get_existing_topics` lists only topics that the broker has confirmed, and every topic it
   asks for late enough after its creation.
   */
  lemma ScanFindsOldTopics(interval: real, before: seq<Check>, checks: seq<Check>, i: nat, born: real)
    requires i < |checks| && forall j | 0 <= j < |checks| :: !checks[j].direct
    requires AllFindFrom(before + checks, checks[i].topic, born)
    requires checks[i].start >= born + Bound(interval)
    ensures checks[i].topic in Found(interval, Run(interval, before), checks)
    ensures forall t | t in Found(interval, Run(interval, before), checks) :: Confirmed(interval, before + checks, t)
  {
    var all := before + checks;
    assert all[|before| + i] == checks[i] && all[..|before| + i] == before + checks[..i];
    assert forall j | 0 <= j < |before| + i :: (before + checks[..i])[j] == all[j];
    BoundedDiscovery(interval, before + checks[..i], checks[i], born);
    ScanFinds(interval, before, checks, i);
    forall t | t in Found(interval, Run(interval, before), checks)
      ensures Confirmed(interval, before + checks, t)
    {
      ScanFindsConfirmed(interval, before, checks, t);
    }
  }
}
