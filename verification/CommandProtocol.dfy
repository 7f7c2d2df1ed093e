/** The asynchronous command result protocol (OCPI 2.2.1, section 13).

    A command's response URL is kept in a cache under the command id, with a time to
    live; a watcher on that cache key reports a timeout. Every posted result first
    overwrites the entry with a sentinel. This module models the executor as steps
    with a clock and proves how often a command's response URL is posted to. */
module CommandProtocol {
  import opened Wrappers

  type CommandId = nat

  const RESOLVED := "resolved"
  const RESOLVED_TTL := 5

  datatype OcppVersion = OCPP1_6 | OCPP2_0_1 | OCPP2_1

  datatype CommandResult = ACCEPTED | EVSE_OCCUPIED | REJECTED | FAILED | TIMEOUT

  /** A cache entry, readable until an expiry step removes it. */
  datatype Entry = Entry(value: string, expiry: nat)

  /** The promise returned by `onChange`: pending, settled but with its continuation
      still queued, or finished. */
  datatype Watcher = Waiting | Settled(value: Option<string>) | Done

  /** `sending` holds while the request to the station has not returned. */
  datatype Command = Command(url: string, deadline: nat, watcher: Watcher, sending: bool)

  datatype Post = Post(id: CommandId, url: string, result: CommandResult)

  datatype State = State(
    timeout: nat,
    handlers: set<OcppVersion>,
    now: nat,
    cache: map<CommandId, Entry>,
    commands: map<CommandId, Command>,
    posts: seq<Post>)

  function Init(timeout: nat, handlers: set<OcppVersion>): State {
    State(timeout, handlers, 0, map[], map[], [])
  }

  // ---------- The cache ----------

  function CacheGet(s: State, id: CommandId): Option<string> {
    if id in s.cache then Some(s.cache[id].value) else None
  }

  /** A pending watcher settles with the first change to its key. */
  function Notify(commands: map<CommandId, Command>, id: CommandId, value: Option<string>): map<CommandId, Command> {
    if id in commands && commands[id].watcher.Waiting? then
      commands[id := commands[id].(watcher := Settled(value))]
    else
      commands
  }

  function CacheSet(s: State, id: CommandId, value: string, ttl: nat): State {
    s.(cache := s.cache[id := Entry(value, s.now + ttl)], commands := Notify(s.commands, id, Some(value)))
  }

  // ---------- Steps ----------

  /** The sentinel is written before the result is posted. */
  function PostCommandResult(s: State, id: CommandId, url: string, result: CommandResult): State {
    var resolved := CacheSet(s, id, RESOLVED, RESOLVED_TTL);
    resolved.(posts := s.posts + [Post(id, url, result)])
  }

  function GenerateCommandId(s: State, id: CommandId, url: string): State {
    var stored := CacheSet(s, id, url, s.timeout);
    stored.(commands := stored.commands[id := Command(url, s.now + s.timeout, Waiting, false)])
  }

  /** The execute methods: file the URL, look up the handler, start sending. An unlock whose connector the
      station does not have is not sendable; its handler posts the failure itself. */
  function Execute(s: State, id: CommandId, url: string, protocol: Option<OcppVersion>, sendable: bool): State {
    var filed := GenerateCommandId(s, id, url);
    if protocol.Some? && protocol.value in s.handlers && sendable then
      filed.(commands := filed.commands[id := filed.commands[id].(sending := true)])
    else
      PostCommandResult(filed, id, url, FAILED)
  }

  function SendReturned(s: State, id: CommandId): State
    requires id in s.commands
  {
    s.(commands := s.commands[id := s.commands[id].(sending := false)])
  }

  /** A failed send posts the failure without looking at the cache. */
  function SendFailed(s: State, id: CommandId): State
    requires id in s.commands
  {
    PostCommandResult(SendReturned(s, id), id, s.commands[id].url, FAILED)
  }

  /** The station's answer. `outcome` is absent when the answer does not validate. */
  function Answer(s: State, id: CommandId, partnerKnown: bool, version: OcppVersion,
                  outcome: Option<CommandResult>): State {
    var responseUrl := CacheGet(s, id).GetOr("");
    if responseUrl == "" || !partnerKnown then s
    else if version !in s.handlers then PostCommandResult(s, id, responseUrl, FAILED)
    else if outcome.None? then s
    else PostCommandResult(s, id, responseUrl, outcome.value)
  }

  function Expire(s: State, id: CommandId): State {
    s.(cache := s.cache - {id}, commands := Notify(s.commands, id, None))
  }

  /** What the watcher does with the value its promise resolved to. */
  function WatcherThen(s: State, id: CommandId, value: Option<string>): State
    requires id in s.commands
  {
    var done := s.(commands := s.commands[id := s.commands[id].(watcher := Done)]);
    if value == Some(RESOLVED) then done
    else PostCommandResult(done, id, s.commands[id].url, TIMEOUT)
  }

  datatype Event =
    | StartEvent(id: CommandId, url: string, protocol: Option<OcppVersion>, sendable: bool)
    | SendReturnedEvent(id: CommandId)
    | SendFailedEvent(id: CommandId)
    | AnswerEvent(id: CommandId, partnerKnown: bool, version: OcppVersion, outcome: Option<CommandResult>)
    | ExpireEvent(id: CommandId)
    | DeadlineEvent(id: CommandId)
    | ContinueEvent(id: CommandId)
    | TickEvent(seconds: nat)

  /** Command ids are fresh and a response URL is a URL, so never the sentinel.
      Time does not pass while a continuation is queued, nor beyond a due timer;
      at one instant the due steps may happen in any order. */
  ghost predicate Enabled(s: State, e: Event) {
    match e
    case StartEvent(id, url, _, _) => id !in s.commands && url != RESOLVED
    case SendReturnedEvent(id) => id in s.commands && s.commands[id].sending
    case SendFailedEvent(id) => id in s.commands && s.commands[id].sending
    case AnswerEvent(_, _, _, _) => true
    case ExpireEvent(id) => id in s.cache && s.cache[id].expiry <= s.now
    case DeadlineEvent(id) => id in s.commands && s.commands[id].watcher.Waiting? && s.commands[id].deadline <= s.now
    case ContinueEvent(id) => id in s.commands && s.commands[id].watcher.Settled?
    case TickEvent(seconds) =>
      && (forall id :: id in s.commands ==> !s.commands[id].watcher.Settled?)
      && (forall id :: id in s.commands && s.commands[id].watcher.Waiting? ==>
        s.now + seconds <= s.commands[id].deadline)
      && (forall id :: id in s.cache ==> s.now + seconds <= s.cache[id].expiry)
  }

  function Apply(s: State, e: Event): State
    requires Enabled(s, e)
  {
    match e
    case StartEvent(id, url, protocol, sendable) => Execute(s, id, url, protocol, sendable)
    case SendReturnedEvent(id) => SendReturned(s, id)
    case SendFailedEvent(id) => SendFailed(s, id)
    case AnswerEvent(id, partnerKnown, version, outcome) => Answer(s, id, partnerKnown, version, outcome)
    case ExpireEvent(id) => Expire(s, id)
    case DeadlineEvent(id) => WatcherThen(s, id, CacheGet(s, id))
    case ContinueEvent(id) => WatcherThen(s, id, s.commands[id].watcher.value)
    case TickEvent(seconds) => s.(now := s.now + seconds)
  }

  ghost predicate IsRun(s: State, es: seq<Event>)
    decreases |es|
  {
    es == [] || (Enabled(s, es[0]) && IsRun(Apply(s, es[0]), es[1..]))
  }

  function Run(s: State, es: seq<Event>): State
    requires IsRun(s, es)
    decreases |es|
  {
    if es == [] then s else Run(Apply(s, es[0]), es[1..])
  }

  // ---------- Counting the posts to a command's response URL ----------

  function CountPosts(posts: seq<Post>, id: CommandId, url: string): nat {
    if posts == [] then 0
    else
      var last := posts[|posts| - 1];
      CountPosts(posts[..|posts| - 1], id, url) + (if last.id == id && last.url == url then 1 else 0)
  }

  function PostsTo(s: State, id: CommandId): nat {
    if id in s.commands then CountPosts(s.posts, id, s.commands[id].url) else 0
  }

  /** The entry still holds the response URL: nothing was posted and nothing is due.
      A caller can read this from the cache before posting. */
  predicate Live(s: State, id: CommandId) {
    id in s.commands && CacheGet(s, id) == Some(s.commands[id].url)
  }

  /** How many sends of this command fail in the run when its entry is no longer live. */
  ghost function LateSendFailures(s: State, es: seq<Event>, id: CommandId): nat
    requires IsRun(s, es)
    decreases |es|
  {
    if es == [] then 0
    else LateSendFailure(s, es[0], id) + LateSendFailures(Apply(s, es[0]), es[1..], id)
  }

  function LateSendFailure(s: State, e: Event, id: CommandId): nat {
    if e == SendFailedEvent(id) && !Live(s, id) then 1 else 0
  }

  /** What holds of one command in every reachable state, `late` being the number of
      late send failures so far. */
  ghost predicate Accounted(s: State, id: CommandId, late: nat) {
    if id !in s.commands then
      late == 0 && id !in s.cache && forall p :: p in s.posts ==> p.id != id
    else
      var c := s.commands[id];
      && c.url != RESOLVED
      && match c.watcher
         case Waiting => late == 0 && PostsTo(s, id) == 0 && s.now <= c.deadline && s.cache.Keys >= {id}
           && s.cache[id] == Entry(c.url, c.deadline)
         case Settled(value) =>
           && s.now <= c.deadline && CacheGet(s, id) in {None, Some(RESOLVED)}
           && ((value == Some(RESOLVED) && PostsTo(s, id) == 1 + late) || (value == None && PostsTo(s, id) == late))
         case Done => CacheGet(s, id) in {None, Some(RESOLVED)} && PostsTo(s, id) == 1 + late
  }

  lemma CountNone(posts: seq<Post>, id: CommandId, url: string)
    requires forall p :: p in posts ==> p.id != id
    ensures CountPosts(posts, id, url) == 0
  {
  }

  lemma CountAppend(posts: seq<Post>, p: Post, id: CommandId, url: string)
    ensures CountPosts(posts + [p], id, url)
            == CountPosts(posts, id, url) + (if p.id == id && p.url == url then 1 else 0)
  {
    assert (posts + [p])[..|posts|] == posts;
  }

  lemma PostEffect(s: State, id: CommandId, url: string, result: CommandResult, other: CommandId)
    requires other in s.commands
    ensures PostsTo(PostCommandResult(s, id, url, result), other)
         == PostsTo(s, other) + (if id == other && url == s.commands[other].url then 1 else 0)
  {
    CountAppend(s.posts, Post(id, url, result), other, s.commands[other].url);
  }

  lemma PostKeepsOther(s: State, id: CommandId, url: string, result: CommandResult, other: CommandId, late: nat)
    requires Accounted(s, other, late) && id != other
    ensures Accounted(PostCommandResult(s, id, url, result), other, late)
  {
    if other in s.commands {
      PostEffect(s, id, url, result, other);
    }
  }

  /** A first post settles the watcher with the sentinel. */
  lemma PostWhileLive(s: State, id: CommandId, result: CommandResult)
    requires Accounted(s, id, 0) && id in s.commands && s.commands[id].watcher.Waiting?
    ensures Accounted(PostCommandResult(s, id, s.commands[id].url, result), id, 0)
  {
    PostEffect(s, id, s.commands[id].url, result, id);
  }

  /** After that, a post to the real URL is one too many; a post to the sentinel is harmless. */
  lemma PostWhileNotLive(s: State, id: CommandId, url: string, result: CommandResult, late: nat)
    requires Accounted(s, id, late) && id in s.commands && !s.commands[id].watcher.Waiting?
    requires url == s.commands[id].url || url == RESOLVED
    ensures Accounted(PostCommandResult(s, id, url, result), id, late + (if url == RESOLVED then 0 else 1))
  {
    PostEffect(s, id, url, result, id);
  }

  lemma StartAccounts(s: State, id: CommandId, url: string, protocol: Option<OcppVersion>, sendable: bool)
    requires Accounted(s, id, 0) && id !in s.commands && url != RESOLVED
    ensures Accounted(Execute(s, id, url, protocol, sendable), id, 0)
  {
    CountNone(s.posts, id, url);
    var filed := GenerateCommandId(s, id, url);
    assert Accounted(filed, id, 0);
    PostWhileLive(filed, id, FAILED);
  }

  lemma TimeoutAccounts(s: State, id: CommandId, value: Option<string>, late: nat)
    requires Accounted(s, id, late) && id in s.commands && !s.commands[id].watcher.Done?
    requires value == if s.commands[id].watcher.Waiting? then CacheGet(s, id) else s.commands[id].watcher.value
    ensures Accounted(WatcherThen(s, id, value), id, late)
  {
    var done := s.(commands := s.commands[id := s.commands[id].(watcher := Done)]);
    assert PostsTo(done, id) == PostsTo(s, id);
    PostEffect(done, id, s.commands[id].url, TIMEOUT, id);
  }

  lemma TimeoutKeepsOther(s: State, id: CommandId, value: Option<string>, other: CommandId, late: nat)
    requires Accounted(s, other, late) && id in s.commands && id != other
    ensures Accounted(WatcherThen(s, id, value), other, late)
  {
    var done := s.(commands := s.commands[id := s.commands[id].(watcher := Done)]);
    PostKeepsOther(done, id, s.commands[id].url, TIMEOUT, other, late);
  }

  lemma AnswerAccounts(s: State, id: CommandId, partnerKnown: bool, version: OcppVersion,
                       outcome: Option<CommandResult>, late: nat)
    requires Accounted(s, id, late)
    ensures Accounted(Answer(s, id, partnerKnown, version, outcome), id, late)
  {
    if id in s.cache {
      var result := if version !in s.handlers then FAILED else outcome.GetOr(FAILED);
      if s.commands[id].watcher.Waiting? {
        PostWhileLive(s, id, result);
      } else {
        PostWhileNotLive(s, id, RESOLVED, result, late);
      }
    }
  }

  lemma SendFailedAccounts(s: State, id: CommandId, late: nat)
    requires Accounted(s, id, late) && id in s.commands
    ensures Accounted(SendFailed(s, id), id, late + LateSendFailure(s, SendFailedEvent(id), id))
  {
    var returned := SendReturned(s, id);
    assert Accounted(returned, id, late);
    if s.commands[id].watcher.Waiting? {
      PostWhileLive(returned, id, FAILED);
    } else {
      PostWhileNotLive(returned, id, s.commands[id].url, FAILED, late);
    }
  }

  lemma OwnStepAccounts(s: State, e: Event, late: nat)
    requires !e.TickEvent? && Accounted(s, e.id, late) && Enabled(s, e)
    ensures Accounted(Apply(s, e), e.id, late + LateSendFailure(s, e, e.id))
  {
    match e
    case StartEvent(id, url, protocol, sendable) => StartAccounts(s, id, url, protocol, sendable);
    case SendReturnedEvent(_) =>
    case SendFailedEvent(id) => SendFailedAccounts(s, id, late);
    case AnswerEvent(id, partnerKnown, version, outcome) => AnswerAccounts(s, id, partnerKnown, version, outcome, late);
    case ExpireEvent(_) =>
    case DeadlineEvent(id) => TimeoutAccounts(s, id, CacheGet(s, id), late);
    case ContinueEvent(id) => TimeoutAccounts(s, id, s.commands[id].watcher.value, late);
  }

  lemma StepKeepsOther(s: State, e: Event, other: CommandId, late: nat)
    requires !e.TickEvent? && e.id != other && Accounted(s, other, late) && Enabled(s, e)
    ensures Accounted(Apply(s, e), other, late)
  {
    match e
    case StartEvent(id, url, _, _) => PostKeepsOther(GenerateCommandId(s, id, url), id, url, FAILED, other, late);
    case SendReturnedEvent(_) =>
    case SendFailedEvent(id) => PostKeepsOther(SendReturned(s, id), id, s.commands[id].url, FAILED, other, late);
    case AnswerEvent(id, _, _, outcome) =>
      var url := CacheGet(s, id).GetOr("");
      PostKeepsOther(s, id, url, FAILED, other, late);
      PostKeepsOther(s, id, url, outcome.GetOr(FAILED), other, late);
    case ExpireEvent(_) =>
    case DeadlineEvent(id) => TimeoutKeepsOther(s, id, CacheGet(s, id), other, late);
    case ContinueEvent(id) => TimeoutKeepsOther(s, id, s.commands[id].watcher.value, other, late);
  }

  /** One step keeps the account, adding to `late` exactly on a late send failure. */
  lemma {:induction false} StepKeepsAccount(s: State, e: Event, id: CommandId, late: nat)
    requires Accounted(s, id, late) && Enabled(s, e)
    ensures Accounted(Apply(s, e), id, late + LateSendFailure(s, e, id))
  {
    if e.TickEvent? {
    } else if e.id == id {
      OwnStepAccounts(s, e, late);
    } else {
      StepKeepsOther(s, e, id, late);
    }
  }

  lemma {:induction false} RunKeepsAccount(s: State, es: seq<Event>, id: CommandId, late: nat)
    requires Accounted(s, id, late) && IsRun(s, es)
    ensures Accounted(Run(s, es), id, late + LateSendFailures(s, es, id))
    decreases |es|
  {
    if es != [] {
      StepKeepsAccount(s, es[0], id, late);
      RunKeepsAccount(Apply(s, es[0]), es[1..], id, late + LateSendFailure(s, es[0], id));
    }
  }

  // ---------- Main results ----------

  /** In every interleaving, a command's response URL is posted to at most once more than
      it has late send failures, and exactly so once its deadline has passed. */
  lemma ExactPostCount(timeout: nat, handlers: set<OcppVersion>, es: seq<Event>, id: CommandId)
    requires IsRun(Init(timeout, handlers), es)
    requires id in Run(Init(timeout, handlers), es).commands
    ensures
      var s0 := Init(timeout, handlers);
      var s := Run(s0, es);
      && PostsTo(s, id) <= 1 + LateSendFailures(s0, es, id)
      && (s.commands[id].deadline < s.now ==> PostsTo(s, id) == 1 + LateSendFailures(s0, es, id))
      && (Live(s, id) ==> PostsTo(s, id) == 0)
  {
    RunKeepsAccount(Init(timeout, handlers), es, id, 0);
  }

  /** A command is sent at most once, so at most one of its sends can fail late. */
  lemma {:induction false} FewLateSendFailures(s: State, es: seq<Event>, id: CommandId)
    requires IsRun(s, es)
    ensures LateSendFailures(s, es, id) <= if id in s.commands && !s.commands[id].sending then 0 else 1
    decreases |es|
  {
    if es != [] {
      FewLateSendFailures(Apply(s, es[0]), es[1..], id);
    }
  }

  /** In every interleaving a command gets two posts at most, and past its deadline one or two. */
  lemma OneOrTwoPosts(timeout: nat, handlers: set<OcppVersion>, es: seq<Event>, id: CommandId)
    requires IsRun(Init(timeout, handlers), es)
    requires id in Run(Init(timeout, handlers), es).commands
    ensures
      var s := Run(Init(timeout, handlers), es);
      && PostsTo(s, id) <= 2
      && (s.commands[id].deadline < s.now ==> 1 <= PostsTo(s, id))
  {
    ExactPostCount(timeout, handlers, es, id);
    FewLateSendFailures(Init(timeout, handlers), es, id);
  }

  /** At most one post in every run, and exactly one past the deadline, precisely when
      each failing send finds the entry live. */
  lemma ExactlyOnceIffNoLateSendFailure(timeout: nat, handlers: set<OcppVersion>, es: seq<Event>, id: CommandId)
    requires IsRun(Init(timeout, handlers), es)
    requires id in Run(Init(timeout, handlers), es).commands
    ensures
      var s0 := Init(timeout, handlers);
      var s := Run(s0, es);
      && (LateSendFailures(s0, es, id) == 0 ==> PostsTo(s, id) <= 1)
      && (s.commands[id].deadline < s.now ==> (PostsTo(s, id) == 1 <==> LateSendFailures(s0, es, id) == 0))
  {
    ExactPostCount(timeout, handlers, es, id);
  }

  /** The condition is needed: a send that fails after the timeout posts a second result. */
  lemma SendFailureAfterTimeoutPostsTwice(timeout: nat, version: OcppVersion, id: CommandId, url: string)
    requires url != RESOLVED
    ensures
      var s0 := Init(timeout, {version});
      var es := [StartEvent(id, url, Some(version), true), TickEvent(timeout), DeadlineEvent(id), SendFailedEvent(id)];
      IsRun(s0, es) && PostsTo(Run(s0, es), id) == 2
  {
    var s0 := Init(timeout, {version});
    var e0, e1, e2, e3 := StartEvent(id, url, Some(version), true), TickEvent(timeout), DeadlineEvent(id),
      SendFailedEvent(id);
    var s1 := Apply(s0, e0);
    var s2 := Apply(s1, e1);
    var s3 := Apply(s2, e2);
    var s4 := Apply(s3, e3);
    RunsInOrder(s3, e3, []);
    assert [e2] + [e3] == [e2, e3];
    RunsInOrder(s2, e2, [e3]);
    assert [e1] + [e2, e3] == [e1, e2, e3];
    RunsInOrder(s1, e1, [e2, e3]);
    assert [e0] + [e1, e2, e3] == [e0, e1, e2, e3];
    RunsInOrder(s0, e0, [e1, e2, e3]);
    assert s4.posts == [Post(id, url, TIMEOUT)] + [Post(id, url, FAILED)];
    CountAppend([], Post(id, url, TIMEOUT), id, url);
    CountAppend([Post(id, url, TIMEOUT)], Post(id, url, FAILED), id, url);
  }

  lemma RunsInOrder(s: State, e: Event, rest: seq<Event>)
    requires Enabled(s, e) && IsRun(Apply(s, e), rest)
    ensures IsRun(s, [e] + rest) && Run(s, [e] + rest) == Run(Apply(s, e), rest)
  {
    assert ([e] + rest)[1..] == rest;
  }

  /** An answer posts to the real URL exactly when it is handled while the entry is live:
      a late or repeated answer never does. */
  lemma AnswerPostsIffLive(s: State, id: CommandId, partnerKnown: bool, version: OcppVersion,
                           outcome: Option<CommandResult>, late: nat)
    requires Accounted(s, id, late) && id in s.commands
    ensures
      var handled := partnerKnown && (version !in s.handlers || outcome.Some?) && s.commands[id].url != "";
      PostsTo(Answer(s, id, partnerKnown, version, outcome), id)
      == PostsTo(s, id) + (if Live(s, id) && handled then 1 else 0)
  {
    var url := CacheGet(s, id).GetOr("");
    PostEffect(s, id, url, FAILED, id);
    PostEffect(s, id, url, outcome.GetOr(FAILED), id);
  }

  // ---------- Which results a command gets ----------

  /** The results posted to a command's response URL, in order. */
  function ResultsTo(posts: seq<Post>, id: CommandId, url: string): seq<CommandResult> {
    if posts == [] then []
    else
      var last := posts[|posts| - 1];
      ResultsTo(posts[..|posts| - 1], id, url) + (if last.id == id && last.url == url then [last.result] else [])
  }

  /** How a command stands, told from events alone: not started, undecided, timed out but not yet reported,
      or decided. */
  datatype Phase = Unborn | Undecided | TimedOut | Decided

  datatype Story = Story(phase: Phase, url: string, results: seq<CommandResult>)

  const UNTOLD := Story(Unborn, "", [])

  /** What an answer decides: a version nobody handles is a failure, an invalid answer decides nothing. */
  function Verdict(handlers: set<OcppVersion>, e: Event): Option<CommandResult>
    requires e.AnswerEvent?
  {
    if !e.partnerKnown then None else if e.version !in handlers then Some(FAILED) else e.outcome
  }

  /** The story of one command, without cache, clock or watcher: the first decision is its result; a timeout
      is one, reported at its deadline or after its entry expired; a failing send always reports a failure. */
  function Tell(handlers: set<OcppVersion>, story: Story, e: Event, id: CommandId): Story {
    match e
    case StartEvent(other, url, protocol, sendable) =>
      if other != id then story
      else if protocol.Some? && protocol.value in handlers && sendable then Story(Undecided, url, [])
      else Story(Decided, url, [FAILED])
    case SendFailedEvent(other) =>
      if other != id then story
      else
        story.(phase := if story.phase.Undecided? then Decided else story.phase, results := story.results + [FAILED])
    case AnswerEvent(other, _, _, _) =>
      if other != id || !story.phase.Undecided? || story.url == "" || Verdict(handlers, e).None? then story
      else story.(phase := Decided, results := story.results + [Verdict(handlers, e).value])
    case ExpireEvent(other) =>
      if other == id && story.phase.Undecided? then story.(phase := TimedOut) else story
    case DeadlineEvent(other) =>
      if other == id then story.(phase := Decided, results := story.results + [TIMEOUT]) else story
    case ContinueEvent(other) =>
      if other == id && story.phase.TimedOut? then story.(phase := Decided, results := story.results + [TIMEOUT])
      else story
    case SendReturnedEvent(_) => story
    case TickEvent(_) => story
  }

  function TellAll(handlers: set<OcppVersion>, story: Story, es: seq<Event>, id: CommandId): Story
    decreases |es|
  {
    if es == [] then story else TellAll(handlers, Tell(handlers, story, es[0], id), es[1..], id)
  }

  /** The story is true of a state. */
  ghost predicate Told(s: State, id: CommandId, story: Story) {
    if id !in s.commands then
      story == UNTOLD && id !in s.cache && forall p :: p in s.posts ==> p.id != id
    else
      var c := s.commands[id];
      && story.url == c.url != RESOLVED && ResultsTo(s.posts, id, c.url) == story.results
      && match story.phase
         case Unborn => false
         case Undecided => c.watcher.Waiting? && CacheGet(s, id) == Some(c.url)
         case TimedOut => c.watcher == Settled(None) && CacheGet(s, id) in {None, Some(RESOLVED)}
         case Decided =>
           && (c.watcher.Done? || c.watcher == Settled(Some(RESOLVED))) && CacheGet(s, id) in {None, Some(RESOLVED)}
  }

  lemma ResultsAppend(posts: seq<Post>, p: Post, id: CommandId, url: string)
    ensures ResultsTo(posts + [p], id, url)
         == ResultsTo(posts, id, url) + (if p.id == id && p.url == url then [p.result] else [])
  {
    assert (posts + [p])[..|posts|] == posts;
  }

  lemma NoResults(posts: seq<Post>, id: CommandId, url: string)
    requires forall p :: p in posts ==> p.id != id
    ensures ResultsTo(posts, id, url) == []
  {
  }

  /** A post decides an undecided command; otherwise it only adds its result, if it goes to the real URL. */
  lemma PostTells(s: State, id: CommandId, url: string, result: CommandResult, story: Story)
    requires Told(s, id, story) && id in s.commands && (story.phase.Undecided? ==> url == story.url)
    ensures
      var results := if url == story.url then story.results + [result] else story.results;
      Told(PostCommandResult(s, id, url, result), id,
           Story(if story.phase.Undecided? then Decided else story.phase, story.url, results))
  {
    ResultsAppend(s.posts, Post(id, url, result), id, story.url);
  }

  lemma PostTellsOther(s: State, id: CommandId, url: string, result: CommandResult, other: CommandId, story: Story)
    requires Told(s, other, story) && id != other
    ensures Told(PostCommandResult(s, id, url, result), other, story)
  {
    ResultsAppend(s.posts, Post(id, url, result), other, story.url);
  }

  lemma FiledTells(s: State, id: CommandId, url: string)
    requires Told(s, id, UNTOLD) && id !in s.commands && url != RESOLVED
    ensures Told(GenerateCommandId(s, id, url), id, Story(Undecided, url, []))
  {
    hide ResultsTo;
    NoResults(s.posts, id, url);
  }

  lemma StartTells(s: State, id: CommandId, url: string, protocol: Option<OcppVersion>, sendable: bool)
    requires Told(s, id, UNTOLD) && id !in s.commands && url != RESOLVED
    ensures
      var told := Tell(s.handlers, UNTOLD, StartEvent(id, url, protocol, sendable), id);
      Told(Execute(s, id, url, protocol, sendable), id, told)
  {
    hide ResultsTo, PostCommandResult;
    FiledTells(s, id, url);
    PostTells(GenerateCommandId(s, id, url), id, url, FAILED, Story(Undecided, url, []));
  }

  lemma AnswerTells(s: State, e: Event, story: Story)
    requires e.AnswerEvent? && Told(s, e.id, story)
    ensures Told(Apply(s, e), e.id, Tell(s.handlers, story, e, e.id))
  {
    if e.id in s.cache && e.id in s.commands {
      var result := if e.version !in s.handlers then FAILED else e.outcome.GetOr(FAILED);
      PostTells(s, e.id, s.cache[e.id].value, result, story);
    }
  }

  lemma SendFailedTells(s: State, id: CommandId, story: Story)
    requires Told(s, id, story) && id in s.commands
    ensures Told(SendFailed(s, id), id, Tell(s.handlers, story, SendFailedEvent(id), id))
  {
    var returned := SendReturned(s, id);
    assert Told(returned, id, story);
    PostTells(returned, id, s.commands[id].url, FAILED, story);
  }

  lemma TimeoutTells(s: State, id: CommandId, value: Option<string>, story: Story)
    requires Told(s, id, story) && id in s.commands && !s.commands[id].watcher.Done?
    requires value == if s.commands[id].watcher.Waiting? then CacheGet(s, id) else s.commands[id].watcher.value
    ensures
      var results := if story.phase.Decided? then story.results else story.results + [TIMEOUT];
      Told(WatcherThen(s, id, value), id, Story(Decided, story.url, results))
  {
    var done := s.(commands := s.commands[id := s.commands[id].(watcher := Done)]);
    assert Told(done, id, story.(phase := Decided)) || story.phase.Undecided?;
    ResultsAppend(s.posts, Post(id, story.url, TIMEOUT), id, story.url);
  }

  lemma OwnStepTells(s: State, e: Event, story: Story)
    requires !e.TickEvent? && Told(s, e.id, story) && Enabled(s, e)
    ensures Told(Apply(s, e), e.id, Tell(s.handlers, story, e, e.id))
  {
    match e
    case StartEvent(id, url, protocol, sendable) => StartTells(s, id, url, protocol, sendable);
    case SendReturnedEvent(_) =>
    case SendFailedEvent(id) => SendFailedTells(s, id, story);
    case AnswerEvent(_, _, _, _) => AnswerTells(s, e, story);
    case ExpireEvent(_) =>
    case DeadlineEvent(id) => TimeoutTells(s, id, CacheGet(s, id), story);
    case ContinueEvent(id) => TimeoutTells(s, id, s.commands[id].watcher.value, story);
  }

  lemma StepTellsOther(s: State, e: Event, other: CommandId, story: Story)
    requires !e.TickEvent? && e.id != other && Told(s, other, story) && Enabled(s, e)
    ensures Told(Apply(s, e), other, story)
  {
    match e
    case StartEvent(id, url, _, _) => PostTellsOther(GenerateCommandId(s, id, url), id, url, FAILED, other, story);
    case SendReturnedEvent(_) =>
    case SendFailedEvent(id) => PostTellsOther(SendReturned(s, id), id, s.commands[id].url, FAILED, other, story);
    case AnswerEvent(id, _, _, outcome) =>
      var url := CacheGet(s, id).GetOr("");
      PostTellsOther(s, id, url, FAILED, other, story);
      PostTellsOther(s, id, url, outcome.GetOr(FAILED), other, story);
    case ExpireEvent(_) =>
    case DeadlineEvent(id) => TimeoutTellsOther(s, id, CacheGet(s, id), other, story);
    case ContinueEvent(id) => TimeoutTellsOther(s, id, s.commands[id].watcher.value, other, story);
  }

  lemma TimeoutTellsOther(s: State, id: CommandId, value: Option<string>, other: CommandId, story: Story)
    requires Told(s, other, story) && id in s.commands && id != other
    ensures Told(WatcherThen(s, id, value), other, story)
  {
    var done := s.(commands := s.commands[id := s.commands[id].(watcher := Done)]);
    PostTellsOther(done, id, s.commands[id].url, TIMEOUT, other, story);
  }

  lemma StepTells(s: State, e: Event, id: CommandId, story: Story)
    requires Told(s, id, story) && Enabled(s, e)
    ensures Told(Apply(s, e), id, Tell(s.handlers, story, e, id)) && Apply(s, e).handlers == s.handlers
  {
    if e.TickEvent? {
    } else if e.id == id {
      OwnStepTells(s, e, story);
    } else {
      StepTellsOther(s, e, id, story);
    }
  }

  /** In every interleaving, what is posted to a command's response URL is what the events alone tell. */
  lemma {:induction false} RunTells(s: State, es: seq<Event>, id: CommandId, story: Story)
    requires Told(s, id, story) && IsRun(s, es)
    ensures Told(Run(s, es), id, TellAll(s.handlers, story, es, id))
    decreases |es|
  {
    if es != [] {
      StepTells(s, es[0], id, story);
      RunTells(Apply(s, es[0]), es[1..], id, Tell(s.handlers, story, es[0], id));
    }
  }

  /** The results of a command after a run, in order, and that it is decided once its deadline has passed. */
  lemma ResultsAreTold(timeout: nat, handlers: set<OcppVersion>, es: seq<Event>, id: CommandId)
    requires IsRun(Init(timeout, handlers), es)
    requires id in Run(Init(timeout, handlers), es).commands
    ensures
      var s, story := Run(Init(timeout, handlers), es), TellAll(handlers, UNTOLD, es, id);
      && ResultsTo(s.posts, id, s.commands[id].url) == story.results
      && (s.commands[id].deadline < s.now ==> story.phase.Decided?)
  {
    RunTells(Init(timeout, handlers), es, id, UNTOLD);
    RunKeepsAccount(Init(timeout, handlers), es, id, 0);
  }

  predicate Supported(handlers: set<OcppVersion>, e: Event)
    requires e.StartEvent?
  {
    e.protocol.Some? && e.protocol.value in handlers && e.sendable
  }

  /** A command that is sent, and neither answered nor fails, times out: past its deadline its results are
      exactly one timeout. */
  lemma SilenceIsTimeout(timeout: nat, handlers: set<OcppVersion>, es: seq<Event>, id: CommandId)
    requires IsRun(Init(timeout, handlers), es)
    requires id in Run(Init(timeout, handlers), es).commands
    requires forall e :: e in es && e.StartEvent? && e.id == id ==> Supported(handlers, e)
    requires forall e :: e in es && (e.AnswerEvent? || e.SendFailedEvent?) ==> e.id != id
    ensures
      var s := Run(Init(timeout, handlers), es);
      s.commands[id].deadline < s.now ==> ResultsTo(s.posts, id, s.commands[id].url) == [TIMEOUT]
  {
    ResultsAreTold(timeout, handlers, es, id);
    SilenceTold(handlers, Init(timeout, handlers), es, id, UNTOLD);
  }

  ghost predicate Silent(story: Story) {
    story.results == if story.phase.Decided? then [TIMEOUT] else []
  }

  lemma {:induction false} SilenceTold(handlers: set<OcppVersion>, s: State, es: seq<Event>, id: CommandId,
                                       story: Story)
    requires Told(s, id, story) && IsRun(s, es) && s.handlers == handlers && Silent(story)
    requires forall e :: e in es && e.StartEvent? && e.id == id ==> Supported(handlers, e)
    requires forall e :: e in es && (e.AnswerEvent? || e.SendFailedEvent?) ==> e.id != id
    ensures Silent(TellAll(handlers, story, es, id))
    decreases |es|
  {
    if es != [] {
      var e := es[0];
      assert e in es && forall e' :: e' in es[1..] ==> e' in es;
      StepTells(s, e, id, story);
      SilenceTold(handlers, Apply(s, e), es[1..], id, Tell(handlers, story, e, id));
    }
  }

  /** The event decides an undecided command. */
  predicate Decides(handlers: set<OcppVersion>, url: string, e: Event, id: CommandId) {
    match e
    case SendFailedEvent(other) => other == id
    case DeadlineEvent(other) => other == id
    case ExpireEvent(other) => other == id
    case AnswerEvent(other, _, _, _) => other == id && url != "" && Verdict(handlers, e).Some?
    case _ => false
  }

  /** The first event that decides a sent command gives its first result: the outcome of an answer from a known
      partner, a failure for an answer in a version nobody handles and for a failed send, a timeout for the
      deadline. */
  lemma FirstDecisionIsFirstResult(timeout: nat, handlers: set<OcppVersion>, before: seq<Event>, start: Event,
                                   between: seq<Event>, decision: Event, after: seq<Event>)
    requires start.StartEvent? && Supported(handlers, start)
    requires IsRun(Init(timeout, handlers), before + [start] + between + [decision] + after)
    requires forall e :: e in between ==> !Decides(handlers, start.url, e, start.id)
    requires Decides(handlers, start.url, decision, start.id) && !decision.ExpireEvent?
    ensures
      var s := Run(Init(timeout, handlers), before + [start] + between + [decision] + after);
      && start.id in s.commands
      && ResultsTo(s.posts, start.id, start.url) != []
      && ResultsTo(s.posts, start.id, start.url)[0]
         == match decision
            case AnswerEvent(_, _, version, outcome) => if version in handlers then outcome.value else FAILED
            case SendFailedEvent(_) => FAILED
            case _ => TIMEOUT
  {
    hide Apply, ResultsTo, IsRun, Run;
    var id, s0, story0 := start.id, Init(timeout, handlers), Story(Undecided, start.url, []);
    var rest := between + [decision] + after;
    assert before + [start] + between + [decision] + after == before + [start] + rest;
    RunsPast(s0, before, start, rest);
    var s1 := Run(s0, before);
    RunTells(s0, before, id, UNTOLD);
    StepTells(s1, start, id, UNTOLD);
    var s2 := Apply(s1, start);
    RunsPast(s2, between, decision, after);
    StaysUndecided(handlers, s2, between, id, story0);
    RunTells(s2, between, id, story0);
    var s3 := Run(s2, between);
    StepTells(s3, decision, id, story0);
    var s4, story := Apply(s3, decision), Tell(handlers, story0, decision, id);
    RunTells(s4, after, id, story);
    KeepsFirst(handlers, s4, after, id, story);
  }

  lemma RunsPast(s: State, before: seq<Event>, e: Event, after: seq<Event>)
    requires IsRun(s, before + [e] + after)
    ensures IsRun(s, before) && Enabled(Run(s, before), e)
    ensures Run(s, before).handlers == s.handlers
    ensures
      var s' := Apply(Run(s, before), e);
      IsRun(s', after) && Run(s, before + [e] + after) == Run(s', after)
  {
    assert before + [e] + after == before + ([e] + after);
    RunsThrough(s, before, [e] + after);
    assert ([e] + after)[0] == e && ([e] + after)[1..] == after;
  }

  lemma {:induction false} RunsThrough(s: State, es: seq<Event>, rest: seq<Event>)
    requires IsRun(s, es + rest)
    ensures IsRun(s, es) && IsRun(Run(s, es), rest) && Run(s, es + rest) == Run(Run(s, es), rest)
    ensures Run(s, es).handlers == s.handlers
    decreases |es|
  {
    if es == [] {
      assert es + rest == rest;
    } else {
      assert (es + rest)[1..] == es[1..] + rest;
      RunsThrough(Apply(s, es[0]), es[1..], rest);
    }
  }

  lemma {:induction false} StaysUndecided(handlers: set<OcppVersion>, s: State, es: seq<Event>, id: CommandId,
                                          story: Story)
    requires Told(s, id, story) && IsRun(s, es) && s.handlers == handlers && story.phase.Undecided?
    requires forall e :: e in es ==> !Decides(handlers, story.url, e, id)
    ensures TellAll(handlers, story, es, id) == story
    decreases |es|
  {
    if es != [] {
      assert es[0] in es && forall e :: e in es[1..] ==> e in es;
      StepTells(s, es[0], id, story);
      StaysUndecided(handlers, Apply(s, es[0]), es[1..], id, story);
    }
  }

  /** Later events only add results. */
  lemma {:induction false} KeepsFirst(handlers: set<OcppVersion>, s: State, es: seq<Event>, id: CommandId, story: Story)
    requires Told(s, id, story) && IsRun(s, es) && s.handlers == handlers && id in s.commands
    ensures id in Run(s, es).commands && Run(s, es).commands[id].url == s.commands[id].url
    ensures story.results <= TellAll(handlers, story, es, id).results
    decreases |es|
  {
    hide Apply, Told, Tell;
    if es != [] {
      StepTells(s, es[0], id, story);
      StepKeepsCommand(s, es[0], id);
      ResultsGrow(s, story, es[0], id);
      KeepsFirst(handlers, Apply(s, es[0]), es[1..], id, Tell(handlers, story, es[0], id));
    }
  }

  lemma ResultsGrow(s: State, story: Story, e: Event, id: CommandId)
    requires id in s.commands && Enabled(s, e)
    ensures story.results <= Tell(s.handlers, story, e, id).results
  {
  }

  /** A command that cannot be sent, for its protocol or its connector, fails at once: that is its only result. */
  lemma UnsentFails(timeout: nat, handlers: set<OcppVersion>, before: seq<Event>, start: Event, after: seq<Event>)
    requires start.StartEvent? && !Supported(handlers, start)
    requires IsRun(Init(timeout, handlers), before + [start] + after)
    ensures
      var s := Run(Init(timeout, handlers), before + [start] + after);
      start.id in s.commands && ResultsTo(s.posts, start.id, start.url) == [FAILED]
  {
    hide ResultsTo, IsRun, Run;
    var id, s0 := start.id, Init(timeout, handlers);
    RunsPast(s0, before, start, after);
    var s1 := Run(s0, before);
    RunTells(s0, before, id, UNTOLD);
    StepTells(s1, start, id, UNTOLD);
    var s2, story := Apply(s1, start), Story(Decided, start.url, [FAILED]);
    RunTells(s2, after, id, story);
    NeverSent(handlers, s2, after, id, story);
  }

  /** Nothing removes a command, changes its URL or deadline, or sends it again. */
  lemma StepKeepsCommand(s: State, e: Event, id: CommandId)
    requires id in s.commands && Enabled(s, e)
    ensures id in Apply(s, e).commands && Apply(s, e).commands[id].url == s.commands[id].url
    ensures Apply(s, e).commands[id].deadline == s.commands[id].deadline
    ensures Apply(s, e).commands[id].sending ==> s.commands[id].sending
  {
  }

  /** The seconds that pass in a run. */
  function Elapsed(es: seq<Event>): nat {
    if es == [] then 0 else (if es[0].TickEvent? then es[0].seconds else 0) + Elapsed(es[1..])
  }

  lemma {:induction false} RunElapses(s: State, es: seq<Event>)
    requires IsRun(s, es)
    ensures Run(s, es).now == s.now + Elapsed(es) && Run(s, es).timeout == s.timeout
    decreases |es|
  {
    if es != [] {
      RunElapses(Apply(s, es[0]), es[1..]);
    }
  }

  lemma {:induction false} RunKeepsCommand(s: State, es: seq<Event>, id: CommandId)
    requires id in s.commands && IsRun(s, es)
    ensures id in Run(s, es).commands && Run(s, es).commands[id].url == s.commands[id].url
    ensures Run(s, es).commands[id].deadline == s.commands[id].deadline
    decreases |es|
  {
    if es != [] {
      StepKeepsCommand(s, es[0], id);
      RunKeepsCommand(Apply(s, es[0]), es[1..], id);
    }
  }

  /** A command keeps the URL it was started with, and its deadline is the time to live after its start, counted
      in the seconds that passed. */
  lemma DeadlineFromStart(timeout: nat, handlers: set<OcppVersion>, before: seq<Event>, start: Event, after: seq<Event>)
    requires start.StartEvent? && IsRun(Init(timeout, handlers), before + [start] + after)
    ensures
      var s := Run(Init(timeout, handlers), before + [start] + after);
      && start.id in s.commands && s.commands[start.id].url == start.url
      && s.commands[start.id].deadline == Elapsed(before) + timeout
      && s.now == Elapsed(before) + Elapsed(after)
  {
    var s0 := Init(timeout, handlers);
    RunsPast(s0, before, start, after);
    RunElapses(s0, before);
    var s1 := Run(s0, before);
    var s2 := Apply(s1, start);
    hide IsRun, Run;
    assert s2.now == s1.now && s2.commands[start.id].deadline == s1.now + timeout;
    RunElapses(s2, after);
    RunKeepsCommand(s2, after, start.id);
  }

  lemma {:induction false} NeverSent(handlers: set<OcppVersion>, s: State, es: seq<Event>, id: CommandId, story: Story)
    requires Told(s, id, story) && IsRun(s, es) && s.handlers == handlers
    requires id in s.commands && !s.commands[id].sending && story.phase.Decided?
    ensures id in Run(s, es).commands && Run(s, es).commands[id].url == s.commands[id].url
    ensures TellAll(handlers, story, es, id) == story
    decreases |es|
  {
    hide Apply, Told;
    if es != [] {
      StepTells(s, es[0], id, story);
      StepKeepsCommand(s, es[0], id);
      assert Tell(handlers, story, es[0], id) == story by { DecidedStays(s, es[0], id, story); }
      NeverSent(handlers, Apply(s, es[0]), es[1..], id, story);
    }
  }

  lemma DecidedStays(s: State, e: Event, id: CommandId, story: Story)
    requires Told(s, id, story) && Enabled(s, e)
    requires id in s.commands && !s.commands[id].sending && story.phase.Decided?
    ensures Tell(s.handlers, story, e, id) == story
  {
  }

  /** The clock is never blocked for good: either a second can pass or a due step can run. */
  lemma NeverStuck(s: State)
    ensures
      || Enabled(s, TickEvent(1))
      || exists id :: Enabled(s, ContinueEvent(id)) || Enabled(s, DeadlineEvent(id)) || Enabled(s, ExpireEvent(id))
  {
    if !Enabled(s, TickEvent(1)) {
      if id :| id in s.commands && s.commands[id].watcher.Settled? {
        assert Enabled(s, ContinueEvent(id));
      } else if id :| id in s.commands && s.commands[id].watcher.Waiting? && s.commands[id].deadline <= s.now {
        assert Enabled(s, DeadlineEvent(id));
      } else {
        var id :| id in s.cache && s.cache[id].expiry <= s.now;
        assert Enabled(s, ExpireEvent(id));
      }
    }
  }

  // ---------- The executor ----------

  /** The executor with the cache it shares with the commands client. */
  class CommandExecutor {
    const timeout: nat
    var handlerRegistry: set<OcppVersion>
    var now: nat
    var cache: map<CommandId, Entry>
    var commands: map<CommandId, Command>
    var posts: seq<Post>

    function Current(): State
      reads this
    {
      State(timeout, handlerRegistry, now, cache, commands, posts)
    }

    constructor (timeout: nat, handlers: seq<OcppVersion>)
      ensures Current() == Init(timeout, set v | v in handlers)
    {
      this.timeout := timeout;
      handlerRegistry, now, cache, commands, posts := {}, 0, map[], map[], [];
      new;
      for i := 0 to |handlers|
        invariant Current() == Init(timeout, set v | v in handlers[..i])
      {
        handlerRegistry := handlerRegistry + {handlers[i]};
        assert handlers[..i + 1] == handlers[..i] + [handlers[i]];
      }
      assert handlers[..] == handlers;
    }

    method Set(id: CommandId, value: string, ttl: nat)
      modifies this`cache, this`commands
      ensures Current() == CacheSet(old(Current()), id, value, ttl)
    {
      cache := cache[id := Entry(value, now + ttl)];
      commands := Notify(commands, id, Some(value));
    }

    method Get(id: CommandId) returns (value: Option<string>)
      ensures value == CacheGet(Current(), id)
    {
      value := if id in cache then Some(cache[id].value) else None;
    }

    method PostResult(id: CommandId, url: string, result: CommandResult)
      modifies this`cache, this`commands, this`posts
      ensures Current() == PostCommandResult(old(Current()), id, url, result)
    {
      Set(id, RESOLVED, RESOLVED_TTL);
      posts := posts + [Post(id, url, result)];
    }

    /** Looks up the handler; without one the command fails at once. */
    method GetCommandHandler(version: Option<OcppVersion>, url: string, id: CommandId) returns (found: bool)
      modifies this`cache, this`commands, this`posts
      ensures found == (version.Some? && version.value in handlerRegistry)
      ensures Current() == if found then old(Current()) else PostCommandResult(old(Current()), id, url, FAILED)
    {
      found := version.Some? && version.value in handlerRegistry;
      if !found {
        PostResult(id, url, FAILED);
      }
    }

    method ExecuteCommand(id: CommandId, url: string, protocol: Option<OcppVersion>, sendable: bool)
      requires id !in commands
      modifies this`cache, this`commands, this`posts
      ensures Current() == Execute(old(Current()), id, url, protocol, sendable)
    {
      Set(id, url, timeout);
      commands := commands[id := Command(url, now + timeout, Waiting, false)];
      var found := GetCommandHandler(protocol, url, id);
      if found {
        if sendable {
          commands := commands[id := commands[id].(sending := true)];
        } else {
          PostResult(id, url, FAILED);
        }
      }
    }

    method HandleAsyncCommandResponse(partnerKnown: bool, version: OcppVersion, id: CommandId,
                                      outcome: Option<CommandResult>)
      modifies this`cache, this`commands, this`posts
      ensures Current() == Answer(old(Current()), id, partnerKnown, version, outcome)
    {
      var responseUrl := Get(id);
      if responseUrl.None? || responseUrl.value == "" {
        return;
      }
      if !partnerKnown {
        return;
      }
      var found := GetCommandHandler(Some(version), responseUrl.value, id);
      if found && outcome.Some? {
        PostResult(id, responseUrl.value, outcome.value);
      }
    }

    /** The watcher's continuation, run with the value its promise resolved to. */
    method OnChangeThen(id: CommandId, value: Option<string>)
      requires id in commands
      modifies this`cache, this`commands, this`posts
      ensures Current() == WatcherThen(old(Current()), id, value)
    {
      commands := commands[id := commands[id].(watcher := Done)];
      if value != Some(RESOLVED) {
        PostResult(id, commands[id].url, TIMEOUT);
      }
    }

    /** The end of a send; a failure posts without consulting the cache. */
    method SendOcppMessageReturns(id: CommandId, success: bool)
      requires id in commands
      modifies this`cache, this`commands, this`posts
      ensures Current() == if success then SendReturned(old(Current()), id) else SendFailed(old(Current()), id)
    {
      commands := commands[id := commands[id].(sending := false)];
      if !success {
        PostResult(id, commands[id].url, FAILED);
      }
    }
  }
}
