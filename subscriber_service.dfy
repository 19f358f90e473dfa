/**
 * The subscriber service: skill updates, deletion with its skill links, and the job digest
 * e-mailed to subscribers, de-duplicated through a cache mapping "sent_jobs:" + email to the
 * ids of the jobs already sent to that address.
 */
module SubscriberService {
  import opened Wrappers
  import opened Seqs
  import opened Entities
  import opened Repositories

  // ---- the sent-jobs cache ----

  function SentKey(email: string): string {
    "sent_jobs:" + email
  }

  lemma SentKeyInjective(a: string, b: string)
    requires SentKey(a) == SentKey(b)
    ensures a == b
  {
    assert a == SentKey(a)[10..] && b == SentKey(b)[10..];
  }

  /** The ids already sent to `email`; a missing entry counts as the empty set. */
  function SentSet(cache: map<string, set<int>>, email: string): set<int> {
    if SentKey(email) in cache then cache[SentKey(email)] else {}
  }

  function JobIds(jobs: seq<Job>): (r: set<int>)
    ensures forall id :: id in r <==> exists j :: j in jobs && j.id == id
  {
    set j | j in jobs :: j.id
  }

  /** `filterNewJobs`: the jobs whose id has not been sent to `email`, in their original order. */
  function FilterNewJobs(cache: map<string, set<int>>, email: string, jobs: seq<Job>): (r: seq<Job>)
    ensures forall j :: j in r <==> j in jobs && j.id !in SentSet(cache, email)
    ensures SentKey(email) !in cache ==> r == jobs
  {
    var p := (j: Job) => j.id !in SentSet(cache, email);
    if SentKey(email) in cache then Filter(jobs, p)
    else FilterAll(jobs, p); Filter(jobs, p)
  }

  /** The filter keeps the order of the jobs: it distributes over concatenation. */
  lemma FilterNewJobsKeepsOrder(cache: map<string, set<int>>, email: string, a: seq<Job>, b: seq<Job>)
    ensures FilterNewJobs(cache, email, a + b)
         == FilterNewJobs(cache, email, a) + FilterNewJobs(cache, email, b)
  {
    FilterConcat(a, b, (j: Job) => j.id !in SentSet(cache, email));
  }

  /** The cache after `markJobsAsSent(email, jobs)`. */
  function MarkedAsSent(cache: map<string, set<int>>, email: string, jobs: seq<Job>)
    : (r: map<string, set<int>>)
    ensures SentSet(r, email) == SentSet(cache, email) + JobIds(jobs)
    ensures forall e :: SentSet(cache, e) <= SentSet(r, e)
  {
    var r := cache[SentKey(email) := SentSet(cache, email) + JobIds(jobs)];
    forall e ensures SentSet(cache, e) <= SentSet(r, e) {
      if SentKey(e) == SentKey(email) {
        SentKeyInjective(e, email);
      }
    }
    r
  }

  /** Once jobs are marked as sent, filtering them again yields nothing. */
  lemma MarkedJobsAreNotNew(cache: map<string, set<int>>, email: string, jobs: seq<Job>)
    ensures FilterNewJobs(MarkedAsSent(cache, email, jobs), email, jobs) == []
  {
    var c := MarkedAsSent(cache, email, jobs);
    FilterNone(jobs, (j: Job) => j.id !in SentSet(c, email));
  }

  method MarkJobsAsSent(db: Database, email: string, jobs: seq<Job>)
    modifies db`sentJobs
    ensures db.sentJobs == MarkedAsSent(old(db.sentJobs), email, jobs)
  {
    var redisKey := SentKey(email);
    var sentJobIds: set<int> := if redisKey in db.sentJobs then db.sentJobs[redisKey] else {};
    var i := 0;
    while i < |jobs|
      invariant 0 <= i <= |jobs|
      invariant sentJobIds == SentSet(db.sentJobs, email) + JobIds(jobs[..i])
    {
      assert jobs[..i + 1] == jobs[..i] + [jobs[i]];
      sentJobIds := sentJobIds + {jobs[i].id};
      i := i + 1;
    }
    assert jobs[..i] == jobs;
    db.sentJobs := db.sentJobs[redisKey := sentJobIds];
  }

  // ---- the digest run ----

  /** The jobs a subscriber's skills match: `findBySkillsInAndActiveTrue`. */
  function MatchedJobs(jobs: seq<Job>, skills: seq<int>): (r: seq<Job>)
    ensures forall j :: j in r <==> j in jobs && j.active && exists s :: s in j.skills && s in skills
  {
    FindBySkillsInAndActiveTrue(jobs, skills)
  }

  /** Rendering a job for the e-mail dereferences its company. */
  predicate Mailable(companies: seq<Company>, j: Job) {
    j.company.Some? && FindCompanyById(companies, j.company.value).Some?
  }

  function JobIdSeq(jobs: seq<Job>): (r: seq<int>)
    ensures |r| == |jobs| && forall i :: 0 <= i < |r| ==> r[i] == jobs[i].id
  {
    seq(|jobs|, i requires 0 <= i < |jobs| => jobs[i].id)
  }

  /** What a run has done so far: the cache, the mails, the count, and whether it threw. */
  datatype DigestRun = DigestRun(sentJobs: map<string, set<int>>, outbox: seq<Mail>, sent: nat,
                                 failure: Option<Error>)

  predicate HasSkills(sub: Subscriber) {
    sub.skills.Some? && sub.skills.value != []
  }

  /** One iteration of the loop of `sendSubscribersEmailJobs`, for subscriber `sub`. */
  function DigestStep(jobs: seq<Job>, companies: seq<Company>, st: DigestRun, sub: Subscriber)
    : (r: DigestRun)
    requires st.failure.None?
    ensures !HasSkills(sub) ==> r == st
    ensures HasSkills(sub) ==>
              var newJobs := FilterNewJobs(st.sentJobs, sub.email, MatchedJobs(jobs, sub.skills.value));
              && (newJobs == [] ==> r == st)
              && (newJobs != [] && r.failure.None? ==>
                    r == DigestRun(MarkedAsSent(st.sentJobs, sub.email, newJobs),
                                   st.outbox + [Mail(sub.email, "job", JobIdSeq(newJobs))],
                                   st.sent + 1, None))
              && (newJobs != [] ==>
                    (r.failure.Some? <==> exists j :: j in newJobs && !Mailable(companies, j)))
    ensures r.failure.Some? ==> r == st.(failure := Some(MissingReference))
  {
    if !HasSkills(sub) then st
    else
      var newJobs := FilterNewJobs(st.sentJobs, sub.email, MatchedJobs(jobs, sub.skills.value));
      if newJobs == [] then st
      else if exists j :: j in newJobs && !Mailable(companies, j) then st.(failure := Some(MissingReference))
      else DigestRun(MarkedAsSent(st.sentJobs, sub.email, newJobs),
                     st.outbox + [Mail(sub.email, "job", JobIdSeq(newJobs))], st.sent + 1, None)
  }

  /** The loop over `subs` from state `st`; a thrown exception ends it. */
  function Digest(jobs: seq<Job>, companies: seq<Company>, subs: seq<Subscriber>, st: DigestRun)
    : (r: DigestRun)
    ensures st.failure.Some? ==> r == st
    ensures st.sent <= r.sent
    ensures |r.outbox| == |st.outbox| + (r.sent - st.sent) && r.outbox[..|st.outbox|] == st.outbox
    decreases |subs|
  {
    if subs == [] || st.failure.Some? then st
    else
      var st' := DigestStep(jobs, companies, st, subs[0]);
      StepCounts(jobs, companies, st, subs[0]);
      var r := Digest(jobs, companies, subs[1..], st');
      PrefixOfPrefix(st.outbox, st'.outbox, r.outbox);
      r
  }

  /** A step adds one to the count exactly when it appends one e-mail, and keeps earlier e-mails. */
  lemma StepCounts(jobs: seq<Job>, companies: seq<Company>, st: DigestRun, sub: Subscriber)
    requires st.failure.None?
    ensures var r := DigestStep(jobs, companies, st, sub);
            st.sent <= r.sent && |r.outbox| == |st.outbox| + (r.sent - st.sent)
            && r.outbox[..|st.outbox|] == st.outbox
  {
  }

  lemma PrefixOfPrefix(a: seq<Mail>, b: seq<Mail>, c: seq<Mail>)
    requires |a| <= |b| <= |c| && b[..|a|] == a && c[..|b|] == b
    ensures c[..|a|] == a
  {
    assert c[..|a|] == c[..|b|][..|a|];
  }

  /** Each subscriber adds at most one to the count. */
  lemma {:induction false} DigestSentBound(jobs: seq<Job>, companies: seq<Company>,
                                           subs: seq<Subscriber>, st: DigestRun)
    ensures Digest(jobs, companies, subs, st).sent <= st.sent + |subs|
  {
    if subs != [] && st.failure.None? {
      DigestSentBound(jobs, companies, subs[1..], DigestStep(jobs, companies, st, subs[0]));
    }
  }

  /** Every job the subscriber's skills match is in the cache entry for the subscriber's e-mail. */
  ghost predicate Covered(jobs: seq<Job>, cache: map<string, set<int>>, sub: Subscriber) {
    HasSkills(sub) ==>
      forall j :: j in MatchedJobs(jobs, sub.skills.value) ==> j.id in SentSet(cache, sub.email)
  }

  ghost predicate Grows(c1: map<string, set<int>>, c2: map<string, set<int>>) {
    forall e :: SentSet(c1, e) <= SentSet(c2, e)
  }

  lemma StepCovers(jobs: seq<Job>, companies: seq<Company>, st: DigestRun, sub: Subscriber)
    requires st.failure.None?
    requires DigestStep(jobs, companies, st, sub).failure.None?
    ensures Grows(st.sentJobs, DigestStep(jobs, companies, st, sub).sentJobs)
    ensures Covered(jobs, DigestStep(jobs, companies, st, sub).sentJobs, sub)
  {
    var r := DigestStep(jobs, companies, st, sub);
    if HasSkills(sub) {
      var matched := MatchedJobs(jobs, sub.skills.value);
      var newJobs := FilterNewJobs(st.sentJobs, sub.email, matched);
      if newJobs == [] {
        assert r == st;
        forall j | j in matched ensures j.id in SentSet(st.sentJobs, sub.email) {
          assert j in newJobs <==> j.id !in SentSet(st.sentJobs, sub.email);
        }
      } else {
        assert r.sentJobs == MarkedAsSent(st.sentJobs, sub.email, newJobs);
        forall j | j in matched ensures j.id in SentSet(r.sentJobs, sub.email) {
          if j.id !in SentSet(st.sentJobs, sub.email) {
            assert j in newJobs;
          }
        }
      }
    }
  }

  /** A run that does not throw covers every subscriber it visited, and only adds to the cache. */
  lemma {:induction false} DigestCovers(jobs: seq<Job>, companies: seq<Company>,
                                        subs: seq<Subscriber>, st: DigestRun)
    requires st.failure.None?
    requires Digest(jobs, companies, subs, st).failure.None?
    ensures Grows(st.sentJobs, Digest(jobs, companies, subs, st).sentJobs)
    ensures forall sub :: sub in subs ==> Covered(jobs, Digest(jobs, companies, subs, st).sentJobs, sub)
  {
    if subs != [] {
      var st' := DigestStep(jobs, companies, st, subs[0]);
      var final := Digest(jobs, companies, subs, st);
      assert final == Digest(jobs, companies, subs[1..], st');
      StepCovers(jobs, companies, st, subs[0]);
      DigestCovers(jobs, companies, subs[1..], st');
      forall sub | sub in subs ensures Covered(jobs, final.sentJobs, sub) {
        if sub == subs[0] {
          CoveredGrows(jobs, st'.sentJobs, final.sentJobs, sub);
        } else {
          assert sub in subs[1..];
        }
      }
    }
  }

  lemma CoveredGrows(jobs: seq<Job>, c1: map<string, set<int>>, c2: map<string, set<int>>, sub: Subscriber)
    requires Covered(jobs, c1, sub) && Grows(c1, c2)
    ensures Covered(jobs, c2, sub)
  {
    assert SentSet(c1, sub.email) <= SentSet(c2, sub.email);
  }

  /** When every subscriber is covered, a run sends nothing and changes nothing. */
  lemma {:induction false} DigestIdle(jobs: seq<Job>, companies: seq<Company>,
                                      subs: seq<Subscriber>, st: DigestRun)
    requires forall sub :: sub in subs ==> Covered(jobs, st.sentJobs, sub)
    ensures Digest(jobs, companies, subs, st) == st
  {
    if subs != [] && st.failure.None? {
      var sub := subs[0];
      assert Covered(jobs, st.sentJobs, sub) by {
        assert sub in subs;
      }
      if HasSkills(sub) {
        var matched := MatchedJobs(jobs, sub.skills.value);
        FilterNone(matched, (j: Job) => j.id !in SentSet(st.sentJobs, sub.email));
      }
      assert DigestStep(jobs, companies, st, sub) == st;
      assert forall s :: s in subs[1..] ==> s in subs;
      DigestIdle(jobs, companies, subs[1..], st);
    }
  }

  /** A second run over the same jobs, with the cache left by a first run that did not throw, sends nothing. */
  lemma SecondRunSendsNothing(jobs: seq<Job>, companies: seq<Company>, subs: seq<Subscriber>,
                              cache: map<string, set<int>>, outbox: seq<Mail>)
    requires Digest(jobs, companies, subs, DigestRun(cache, outbox, 0, None)).failure.None?
    ensures var first := Digest(jobs, companies, subs, DigestRun(cache, outbox, 0, None));
            var second := Digest(jobs, companies, subs, DigestRun(first.sentJobs, first.outbox, 0, None));
            second.sent == 0 && second.failure.None?
            && second.sentJobs == first.sentJobs && second.outbox == first.outbox
  {
    var first := Digest(jobs, companies, subs, DigestRun(cache, outbox, 0, None));
    DigestCovers(jobs, companies, subs, DigestRun(cache, outbox, 0, None));
    DigestIdle(jobs, companies, subs, DigestRun(first.sentJobs, first.outbox, 0, None));
  }

  /** The initial state of a run over the store `t`. */
  function RunStart(t: Tables): DigestRun {
    DigestRun(t.sentJobs, t.outbox, 0, None)
  }

  method SendSubscribersEmailJobs(db: Database) returns (r: Result<int, Error>)
    modifies db
    ensures var run := Digest(old(db.jobs), old(db.companies), old(db.subscribers), RunStart(old(db.Snapshot())));
            && db.Snapshot() == old(db.Snapshot()).(sentJobs := run.sentJobs, outbox := run.outbox)
            && r == (if run.failure.Some? then Err(run.failure.value) else Ok(run.sent))
  {
    ghost var final := Digest(db.jobs, db.companies, db.subscribers, RunStart(db.Snapshot()));
    var sent := 0;
    var listSubs := db.subscribers;
    var i := 0;
    while i < |listSubs|
      modifies db`sentJobs, db`outbox
      invariant 0 <= i <= |listSubs|
      invariant final == Digest(db.jobs, db.companies, listSubs[i..], DigestRun(db.sentJobs, db.outbox, sent, None))
    {
      assert listSubs[i..][1..] == listSubs[i + 1..];
      var failure;
      sent, failure := SendToSubscriber(db, listSubs[i], sent);
      if failure.Some? {
        return Err(failure.value);
      }
      i := i + 1;
    }
    return Ok(sent);
  }

  /** The body of the loop of `sendSubscribersEmailJobs` for subscriber `sub`. */
  method SendToSubscriber(db: Database, sub: Subscriber, sent: nat) returns (sent': nat, failure: Option<Error>)
    modifies db`sentJobs, db`outbox
    ensures failure.Some? ==> db.sentJobs == old(db.sentJobs) && db.outbox == old(db.outbox)
    ensures failure.Some? ==>
              DigestStep(db.jobs, db.companies, DigestRun(db.sentJobs, db.outbox, sent, None), sub).failure == failure
    ensures failure.None? ==>
              DigestStep(db.jobs, db.companies, DigestRun(old(db.sentJobs), old(db.outbox), sent, None), sub)
              == DigestRun(db.sentJobs, db.outbox, sent', None)
  {
    if !HasSkills(sub) {
      return sent, None;
    }
    var matchedJobs := MatchedJobs(db.jobs, sub.skills.value);
    var newJobs := FilterNewJobs(db.sentJobs, sub.email, matchedJobs);
    if newJobs == [] {
      return sent, None;
    }
    if exists j :: j in newJobs && !Mailable(db.companies, j) {
      return sent, Some(MissingReference);
    }
    EmailJobs(db, sub.email, newJobs);
    return sent + 1, None;
  }

  /** Sends the digest of `newJobs` to `email`, then marks them as sent. */
  method EmailJobs(db: Database, email: string, newJobs: seq<Job>)
    modifies db`sentJobs, db`outbox
    ensures db.outbox == old(db.outbox) + [Mail(email, "job", JobIdSeq(newJobs))]
    ensures db.sentJobs == MarkedAsSent(old(db.sentJobs), email, newJobs)
  {
    db.outbox := db.outbox + [Mail(email, "job", JobIdSeq(newJobs))];
    MarkJobsAsSent(db, email, newJobs);
  }

  // ---- update and delete ----

  /** `update(subsDB, subsRequest)` on row `k`: the skills are replaced only when the request has a list. */
  function SubscriberUpdated(subscribers: seq<Subscriber>, skills: seq<Skill>, k: nat,
                             requested: Option<seq<int>>): (r: seq<Subscriber>)
    requires k < |subscribers|
    ensures |r| == |subscribers| && r[..k] == subscribers[..k] && r[k + 1..] == subscribers[k + 1..]
    ensures r[k] == subscribers[k].(skills := r[k].skills)
    ensures requested.None? ==> r == subscribers
    ensures requested.Some? ==> r[k].skills.Some? && forall x :: x in r[k].skills.value <==>
              x in requested.value && exists i :: 0 <= i < |skills| && skills[i].id == x
  {
    if requested.None? then subscribers
    else subscribers[k := subscribers[k].(skills := Some(FindSkillIdsByIdIn(skills, requested.value)))]
  }

  method Update(db: Database, k: nat, requested: Option<seq<int>>) returns (subscriber: Subscriber)
    requires k < |db.subscribers|
    modifies db
    ensures db.Snapshot() == old(db.Snapshot()).(subscribers :=
              SubscriberUpdated(old(db.subscribers), old(db.skills), k, requested))
    ensures subscriber == db.subscribers[k]
  {
    var subsDB := db.subscribers[k];
    if requested.Some? {
      subsDB := subsDB.(skills := Some(FindSkillIdsByIdIn(db.skills, requested.value)));
    }
    db.subscribers := db.subscribers[k := subsDB];
    return subsDB;
  }

  /**
   * `skill.getSubscribers()`: the ids of the subscribers whose skill list holds `skillId`. The
   * link is one join table, so the skill side is read off the subscribers' lists.
   */
  function SubscribersOfSkill(subscribers: seq<Subscriber>, skillId: int): set<int> {
    set k | 0 <= k < |subscribers| && subscribers[k].skills.Some? && skillId in subscribers[k].skills.value
      :: subscribers[k].id
  }

  /**
   * With unique ids, `update` relinks only the updated subscriber: it is linked to exactly the
   * skills of its new list, and every other subscriber of every skill stays as it was.
   */
  lemma UpdateRelinks(subscribers: seq<Subscriber>, skills: seq<Skill>, k: nat,
                      requested: Option<seq<int>>, x: int)
    requires k < |subscribers|
    requires UniqueKeys(subscribers, (s: Subscriber) => s.id)
    ensures var r := SubscriberUpdated(subscribers, skills, k, requested);
            && SubscribersOfSkill(r, x) - {subscribers[k].id}
               == SubscribersOfSkill(subscribers, x) - {subscribers[k].id}
            && (subscribers[k].id in SubscribersOfSkill(r, x)
                <==> r[k].skills.Some? && x in r[k].skills.value)
  {
    var r := SubscriberUpdated(subscribers, skills, k, requested);
    var id := subscribers[k].id;
    forall y | y in SubscribersOfSkill(r, x) && y != id
      ensures y in SubscribersOfSkill(subscribers, x)
    {
      var j :| 0 <= j < |r| && r[j].skills.Some? && x in r[j].skills.value && r[j].id == y;
      assert j != k;
      assert r[j] == subscribers[j] by {
        if j < k { assert r[j] == r[..k][j]; } else { assert r[j] == r[k + 1..][j - k - 1]; }
      }
    }
    forall y | y in SubscribersOfSkill(subscribers, x) && y != id
      ensures y in SubscribersOfSkill(r, x)
    {
      var j :| 0 <= j < |subscribers| && subscribers[j].skills.Some? && x in subscribers[j].skills.value
               && subscribers[j].id == y;
      assert j != k;
      assert r[j] == subscribers[j] by {
        if j < k { assert r[j] == r[..k][j]; } else { assert r[j] == r[k + 1..][j - k - 1]; }
      }
    }
  }

  /** The subscriber table without row `k`. */
  function RowRemoved(s: seq<Subscriber>, k: nat): (r: seq<Subscriber>)
    requires k < |s|
    ensures |r| == |s| - 1
    ensures forall j :: 0 <= j < |r| ==> r[j] == s[if j < k then j else j + 1]
  {
    s[..k] + s[k + 1..]
  }

  /**
   * The store after `delete(id)`, or the exception it throws: the subscriber's links are
   * cleared and its row removed. A null skill list is dereferenced at line 84.
   */
  function SubscriberDeleted(t: Tables, id: int): (r: Result<Tables, Error>)
    ensures FindSubscriberById(t.subscribers, id).None? <==> r == Err(SubscriberNotFound)
    ensures FindSubscriberById(t.subscribers, id).Some? ==>
              (t.subscribers[FindSubscriberById(t.subscribers, id).value].skills.None? <==> r == Err(MissingReference))
    ensures r.Ok? ==> r.value == t.(subscribers := r.value.subscribers)
                      && |r.value.subscribers| == |t.subscribers| - 1
                      && r.value.subscribers
                         == RowRemoved(t.subscribers, FindSubscriberById(t.subscribers, id).value)
  {
    match FindSubscriberById(t.subscribers, id)
    case None => Err(SubscriberNotFound)
    case Some(k) =>
      var sub := t.subscribers[k];
      if sub.skills.None? then Err(MissingReference)
      else Ok(t.(subscribers := RowRemoved(t.subscribers, k)))
  }

  /** With unique ids, removing row `k` removes its id, and only its id, from every skill. */
  lemma RemovedRowUnlinks(s: seq<Subscriber>, k: nat, x: int)
    requires k < |s|
    requires UniqueKeys(s, (r: Subscriber) => r.id)
    ensures forall j :: 0 <= j < |RowRemoved(s, k)| ==> RowRemoved(s, k)[j].id != s[k].id
    ensures SubscribersOfSkill(RowRemoved(s, k), x) == SubscribersOfSkill(s, x) - {s[k].id}
  {
    var s' := RowRemoved(s, k);
    forall j | 0 <= j < |s'| ensures s'[j].id != s[k].id {
      assert s'[j] == s[if j < k then j else j + 1];
    }
    forall y | y in SubscribersOfSkill(s', x) ensures y in SubscribersOfSkill(s, x) {
      var j :| 0 <= j < |s'| && s'[j].skills.Some? && x in s'[j].skills.value && s'[j].id == y;
      assert s'[j] == s[if j < k then j else j + 1];
    }
    forall y | y in SubscribersOfSkill(s, x) - {s[k].id} ensures y in SubscribersOfSkill(s', x) {
      var j :| 0 <= j < |s| && s[j].skills.Some? && x in s[j].skills.value && s[j].id == y;
      var j' := if j < k then j else j - 1;
      assert s'[j'] == s[j];
    }
  }

  /**
   * With unique ids, deleting a subscriber leaves no trace of it: no row keeps its id and
   * every skill loses exactly that subscriber.
   */
  lemma DeleteLeavesNoTrace(t: Tables, id: int, x: int)
    requires UniqueKeys(t.subscribers, (s: Subscriber) => s.id)
    requires SubscriberDeleted(t, id).Ok?
    ensures var t' := SubscriberDeleted(t, id).value;
            && (forall k :: 0 <= k < |t'.subscribers| ==> t'.subscribers[k].id != id)
            && SubscribersOfSkill(t'.subscribers, x) == SubscribersOfSkill(t.subscribers, x) - {id}
  {
    var k := FindSubscriberById(t.subscribers, id).value;
    RemovedRowUnlinks(t.subscribers, k, x);
  }

  method Delete(db: Database, id: int) returns (failure: Option<Error>)
    modifies db
    ensures SubscriberDeleted(old(db.Snapshot()), id).Err? ==>
              failure == Some(SubscriberDeleted(old(db.Snapshot()), id).error)
              && db.Snapshot() == old(db.Snapshot())
    ensures SubscriberDeleted(old(db.Snapshot()), id).Ok? ==>
              failure == None && db.Snapshot() == SubscriberDeleted(old(db.Snapshot()), id).value
  {
    var found := FindSubscriberById(db.subscribers, id);
    if found.None? {
      return Some(SubscriberNotFound);
    }
    var k := found.value;
    var subscriber := db.subscribers[k];
    if subscriber.skills.None? {
      return Some(MissingReference);
    }
    db.subscribers := db.subscribers[k := subscriber.(skills := Some([]))];
    db.subscribers := RowRemoved(db.subscribers, k);
    return None;
  }
}
