/**
 * The auth state of one connection (packages/server/src/engine/session.ts): frames resolve
 * concurrently, and the first to succeed commits its token for good.
 */
module Session {
  import opened Common

  /** Header names are lower case. */
  type Headers = map<string, string>

  const AUTHORIZATION := "authorization"

  /** The token field of an auth frame as it came off the wire. */
  datatype RawToken = Missing | NotText | Text(s: string)

  function Normalize(raw: RawToken): Option<string> {
    if raw.Text? && raw.s != "" then Some(raw.s) else None
  }

  /** The auth frame is the only source of identity: what the base request carried is replaced or stripped. */
  function BuildAuthRequest(base: Headers, token: Option<string>): Headers {
    if token.Some? && token.value != "" then base[AUTHORIZATION := "Bearer " + token.value] else base - {AUTHORIZATION}
  }

  /** Two connections that differ only in inherited credentials, or two frames with one token, are indistinguishable. */
  lemma RequestDependsOnTokenAlone(base: Headers, other: Headers, token: Option<string>, otherToken: Option<string>)
    requires base - {AUTHORIZATION} == other - {AUTHORIZATION}
    ensures BuildAuthRequest(base, token) - {AUTHORIZATION} == base - {AUTHORIZATION}
    ensures Credential(BuildAuthRequest(base, token)) == CredentialOf(token)
    ensures BuildAuthRequest(base, token) == BuildAuthRequest(other, otherToken)
       <==> token == otherToken || (token in {None, Some("")} && otherToken in {None, Some("")})
  {
    var x, y := BuildAuthRequest(base, token), BuildAuthRequest(other, otherToken);
    assert x - {AUTHORIZATION} == base - {AUTHORIZATION} && y - {AUTHORIZATION} == other - {AUTHORIZATION};
    assert x == y <==> Credential(x) == Credential(y) by {
      if Credential(x) == Credential(y) {
        assert forall h :: h in x && h != AUTHORIZATION ==> h in x - {AUTHORIZATION};
        assert forall h :: h in y && h != AUTHORIZATION ==> h in y - {AUTHORIZATION};
        assert forall h :: h in x - {AUTHORIZATION} <==> h in y - {AUTHORIZATION};
        forall h
          ensures (h in x <==> h in y) && (h in x ==> x[h] == y[h])
        {
          if h != AUTHORIZATION && h in x {
            assert (x - {AUTHORIZATION})[h] == (y - {AUTHORIZATION})[h];
          }
        }
        assert x == y;
      }
    }
    if token.Some? && otherToken.Some? && "Bearer " + token.value == "Bearer " + otherToken.value {
      assert token.value == ("Bearer " + token.value)[7..] == ("Bearer " + otherToken.value)[7..];
    }
  }

  /** The credential a token stands for. */
  function CredentialOf(token: Option<string>): Option<string> {
    if token in {None, Some("")} then None else Some("Bearer " + token.value)
  }

  function Credential(headers: Headers): Option<string> {
    if AUTHORIZATION in headers then Some(headers[AUTHORIZATION]) else None
  }

  datatype Outcome = Authenticated(committed: bool) | CloseTransient | CloseAuthFailed

  /** What resolving the context came to. */
  datatype Resolution = Resolved | Unavailable | Rejected

  /** An auth frame: its token, and its outcome once it has one. */
  datatype AuthFrame = AuthFrame(token: Option<string>, outcome: Option<Outcome>)

  /** `settled` lists frames in the order they got their outcome. */
  datatype State = State(requiresAuth: bool, authenticated: bool, token: Option<string>, frames: seq<AuthFrame>, settled: seq<nat>)

  function Created(requiresAuth: bool): State {
    State(requiresAuth, !requiresAuth, None, [], [])
  }

  function SettleFrame(s: State, i: nat, outcome: Outcome): State
    requires i < |s.frames|
  {
    s.(frames := s.frames[i := s.frames[i].(outcome := Some(outcome))], settled := s.settled + [i])
  }

  /** Up to the `await`; an authenticated session acknowledges at once. */
  function Feed(s: State, raw: RawToken): State {
    var fed := s.(frames := s.frames + [AuthFrame(Normalize(raw), None)]);
    if s.authenticated then SettleFrame(fed, |s.frames|, Authenticated(false)) else fed
  }

  predicate Waiting(s: State, i: nat) {
    i < |s.frames| && s.frames[i].outcome.None?
  }

  /** After the `await`: whoever is not first acknowledges without a say. */
  function Resume(s: State, i: nat, resolution: Resolution): State
    requires Waiting(s, i)
  {
    if s.authenticated then SettleFrame(s, i, Authenticated(false))
    else
      match resolution
      case Unavailable => SettleFrame(s, i, CloseTransient)
      case Rejected => SettleFrame(s, i, CloseAuthFailed)
      case Resolved => SettleFrame(s, i, Authenticated(true)).(token := s.frames[i].token, authenticated := true)
  }

  datatype Event = Frame(raw: RawToken) | Settles(i: nat, resolution: Resolution)

  predicate Happens(s: State, e: Event) {
    e.Settles? ==> Waiting(s, e.i)
  }

  function Next(s: State, e: Event): State
    requires Happens(s, e)
  {
    match e
    case Frame(raw) => Feed(s, raw)
    case Settles(i, resolution) => Resume(s, i, resolution)
  }

  predicate Committed(s: State, i: nat) {
    i < |s.frames| && s.frames[i].outcome == Some(Authenticated(true))
  }

  /** At most one frame commits; the session is authenticated from then on, with its token. */
  ghost predicate Winner(s: State) {
    && (forall i: nat, j: nat :: Committed(s, i) && Committed(s, j) ==> i == j)
    && (s.requiresAuth ==> (s.authenticated <==> exists i: nat :: Committed(s, i)))
    && (!s.requiresAuth ==> s.authenticated && forall i: nat :: !Committed(s, i))
    && (forall i: nat :: Committed(s, i) ==> s.token == s.frames[i].token)
    && ((forall i: nat :: !Committed(s, i)) ==> s.token == None)
  }

  /** `settled` lists the settled frames once each, and after a commit only acknowledgements. */
  ghost predicate Settling(s: State) {
    && (forall k :: 0 <= k < |s.settled| ==> s.settled[k] < |s.frames| && s.frames[s.settled[k]].outcome.Some?)
    && (forall j, k :: 0 <= j < k < |s.settled| ==> s.settled[j] != s.settled[k])
    && (forall j, k :: 0 <= j < k < |s.settled| && Committed(s, s.settled[j]) ==> s.frames[s.settled[k]].outcome == Some(Authenticated(false)))
    && (s.authenticated || forall k :: 0 <= k < |s.settled| ==> !Committed(s, s.settled[k]))
  }

  ghost predicate Inv(s: State) {
    Winner(s) && Settling(s)
  }

  lemma FeedKeeps(s: State, raw: RawToken)
    requires Inv(s)
    ensures Inv(Feed(s, raw))
  {
    var next := Feed(s, raw);
    assert forall i: nat :: Committed(next, i) <==> Committed(s, i);
    FeedKeepsSettling(s, raw);
    hide Settling;
  }

  lemma FeedKeepsSettling(s: State, raw: RawToken)
    requires Settling(s)
    ensures Settling(Feed(s, raw))
  {
    var next := Feed(s, raw);
    assert forall i: nat :: Committed(next, i) <==> Committed(s, i);
  }

  lemma ResumeKeeps(s: State, i: nat, resolution: Resolution)
    requires Inv(s) && Waiting(s, i)
    ensures Inv(Resume(s, i, resolution))
  {
    var next := Resume(s, i, resolution);
    var commits := !s.authenticated && resolution == Resolved;
    assert forall j: nat :: Committed(next, j) <==> Committed(s, j) || (j == i && commits);
    assert next.settled[|s.settled|] == i;
  }

  ghost predicate Runs(s: State, events: seq<Event>)
    decreases |events|
  {
    events != [] ==> Happens(s, events[0]) && Runs(Next(s, events[0]), events[1..])
  }

  ghost function Take(s: State, events: seq<Event>): State
    requires Runs(s, events)
    decreases |events|
  {
    if events == [] then s else Take(Next(s, events[0]), events[1..])
  }

  lemma {:induction false} RunKeepsInv(s: State, events: seq<Event>)
    requires Inv(s) && Runs(s, events)
    ensures Inv(Take(s, events)) && Take(s, events).requiresAuth == s.requiresAuth
    decreases |events|
  {
    hide Inv;
    if events != [] {
      match events[0] {
        case Frame(raw) => FeedKeeps(s, raw);
        case Settles(i, resolution) => ResumeKeeps(s, i, resolution);
      }
      RunKeepsInv(Next(s, events[0]), events[1..]);
    }
  }

  /** In every run at most one frame commits, and the session's token is that frame's. */
  lemma AtMostOneCommits(requiresAuth: bool, events: seq<Event>, i: nat, j: nat)
    requires Runs(Created(requiresAuth), events)
    ensures var s := Take(Created(requiresAuth), events);
            && (Committed(s, i) && Committed(s, j) ==> i == j)
            && (Committed(s, i) ==> requiresAuth && s.authenticated && s.token == s.frames[i].token)
            && (s.authenticated && requiresAuth ==> exists k: nat :: Committed(s, k))
            && ((forall k: nat :: !Committed(s, k)) ==> s.token == None)
  {
    RunKeepsInv(Created(requiresAuth), events);
  }

  /** Once authenticated, a session stays so with the same token and the same winner, and no later frame closes it. */
  lemma {:induction false} CommitIsFinal(s: State, events: seq<Event>)
    requires Inv(s) && s.authenticated && Runs(s, events)
    ensures var end := Take(s, events);
            && end.authenticated && end.token == s.token
            && (forall i: nat :: Committed(end, i) <==> Committed(s, i))
            && s.settled <= end.settled
            && forall k :: |s.settled| <= k < |end.settled| ==>
                 end.settled[k] < |end.frames| && end.frames[end.settled[k]].outcome == Some(Authenticated(false))
    decreases |events|
  {
    if events != [] {
      var next := Next(s, events[0]);
      match events[0] {
        case Frame(raw) => FeedKeeps(s, raw);
        case Settles(i, resolution) => ResumeKeeps(s, i, resolution);
      }
      assert forall i: nat :: Committed(next, i) <==> Committed(s, i);
      hide Inv;
      CommitIsFinal(next, events[1..]);
      LaterKeepsOutcomes(next, events[1..]);
    }
  }

  /** An outcome is never revised. */
  lemma {:induction false} LaterKeepsOutcomes(s: State, events: seq<Event>)
    requires Runs(s, events)
    ensures var end := Take(s, events);
            |end.frames| >= |s.frames|
            && forall i :: 0 <= i < |s.frames| && s.frames[i].outcome.Some? ==> end.frames[i] == s.frames[i]
    decreases |events|
  {
    if events != [] {
      LaterKeepsOutcomes(Next(s, events[0]), events[1..]);
    }
  }

  ghost function Before(s: State, events: seq<Event>, k: nat): State
    requires Runs(s, events) && k <= |events|
    decreases |events|
  {
    if k == 0 then s else Before(Next(s, events[0]), events[1..], k - 1)
  }

  /** The k-th event brings frame `i` its context, or the lack of one, while nobody has authenticated. */
  ghost predicate HasSay(s: State, events: seq<Event>, k: nat, i: nat, resolution: Resolution)
    requires Runs(s, events)
  {
    k < |events| && events[k] == Settles(i, resolution) && !Before(s, events, k).authenticated
  }

  predicate Answered(s: State, i: nat, outcome: Outcome) {
    i < |s.frames| && s.frames[i].outcome == Some(outcome)
  }

  function AnswerTo(resolution: Resolution): Outcome {
    match resolution
    case Resolved => Authenticated(true)
    case Unavailable => CloseTransient
    case Rejected => CloseAuthFailed
  }

  lemma {:induction false} SettlesOnce(s: State, events: seq<Event>, i: nat, k: nat)
    requires Runs(s, events) && i < |s.frames| && s.frames[i].outcome.Some? && k < |events|
    ensures events[k].Settles? ==> events[k].i != i
    decreases |events|
  {
    if k > 0 {
      SettlesOnce(Next(s, events[0]), events[1..], i, k - 1);
    }
  }

  lemma {:induction false} AnswerFromHere(s: State, events: seq<Event>, i: nat, resolution: Resolution)
    requires Runs(s, events) && (i < |s.frames| ==> s.frames[i].outcome.None?)
    ensures Answered(Take(s, events), i, AnswerTo(resolution)) <==> exists k: nat :: HasSay(s, events, k, i, resolution)
    decreases |events|
  {
    if events == [] {
      return;
    }
    var next, rest := Next(s, events[0]), events[1..];
    if i < |next.frames| && next.frames[i].outcome.Some? {
      LaterKeepsOutcomes(next, rest);
      forall k: nat | 1 <= k < |events|
        ensures !HasSay(s, events, k, i, resolution)
      {
        SettlesOnce(next, rest, i, k - 1);
      }
      assert HasSay(s, events, 0, i, resolution) <==> next.frames[i].outcome == Some(AnswerTo(resolution));
    } else {
      AnswerFromHere(next, rest, i, resolution);
      forall k: nat | k < |rest|
        ensures HasSay(next, rest, k, i, resolution) <==> HasSay(s, events, k + 1, i, resolution)
      {}
      if k: nat :| HasSay(next, rest, k, i, resolution) {
        assert HasSay(s, events, k + 1, i, resolution);
      }
      if k: nat :| HasSay(s, events, k, i, resolution) {
        assert k > 0 && HasSay(next, rest, k - 1, i, resolution);
      }
    }
  }

  /**
   * In every run a frame is closed as transient, closed as failed, or commits, exactly if its context turned
   * out unavailable, rejected or resolved while nobody had authenticated.
   */
  lemma AnswerIsOfItsContext(requiresAuth: bool, events: seq<Event>, i: nat, resolution: Resolution)
    requires Runs(Created(requiresAuth), events)
    ensures Answered(Take(Created(requiresAuth), events), i, AnswerTo(resolution))
       <==> exists k: nat :: HasSay(Created(requiresAuth), events, k, i, resolution)
  {
    AnswerFromHere(Created(requiresAuth), events, i, resolution);
  }

  /** The tokens that came off the wire, in order. */
  function RawTokens(events: seq<Event>): seq<RawToken> {
    if events == [] then []
    else RawTokens(events[..|events| - 1]) + if events[|events| - 1].Frame? then [events[|events| - 1].raw] else []
  }

  /** The credential a frame presents: none for a token that is missing, empty or not text. */
  function Presents(raw: RawToken): Option<string> {
    match raw
    case Text(s) => if |s| > 0 then Some("Bearer " + s) else None
    case _ => None
  }

  lemma {:induction false} TakeSnoc(s: State, events: seq<Event>)
    requires Runs(s, events) && events != []
    ensures var init := events[..|events| - 1];
            Runs(s, init) && Happens(Take(s, init), events[|events| - 1]) && Take(s, events) == Next(Take(s, init), events[|events| - 1])
    decreases |events|
  {
    if |events| > 1 {
      var rest := events[1..];
      TakeSnoc(Next(s, events[0]), rest);
      assert events[..|events| - 1][1..] == rest[..|rest| - 1];
    }
  }

  ghost predicate AllPresent(frames: seq<AuthFrame>, raws: seq<RawToken>) {
    |frames| == |raws| && forall i: nat :: i < |frames| ==> CredentialOf(frames[i].token) == Presents(raws[i])
  }

  lemma NonePresent()
    ensures AllPresent([], [])
  {}

  lemma StepPresents(s: State, e: Event, raws: seq<RawToken>)
    requires Happens(s, e) && AllPresent(s.frames, raws)
    ensures AllPresent(Next(s, e).frames, raws + if e.Frame? then [e.raw] else [])
  {
    if e.Settles? {
      assert raws + [] == raws;
    }
  }

  /** In every run there is one frame for each token off the wire, in that order, standing for the credential the wire presented. */
  lemma {:induction false} FramesPresentTheirTokens(requiresAuth: bool, events: seq<Event>)
    requires Runs(Created(requiresAuth), events)
    ensures AllPresent(Take(Created(requiresAuth), events).frames, RawTokens(events))
    decreases |events|
  {
    hide AllPresent, Next, Happens;
    if events == [] {
      NonePresent();
    } else {
      var init, last := events[..|events| - 1], events[|events| - 1];
      TakeSnoc(Created(requiresAuth), events);
      FramesPresentTheirTokens(requiresAuth, init);
      StepPresents(Take(Created(requiresAuth), init), last, RawTokens(init));
    }
  }

  // ---------------------------------------------------------------------------------------
  // The session
  // ---------------------------------------------------------------------------------------

  class AuthSession {
    const requiresAuth: bool
    const baseHeaders: Headers
    var authenticated: bool
    var token: Option<string>
    ghost var frames: seq<AuthFrame>
    ghost var settled: seq<nat>

    ghost function Model(): State
      reads this
    {
      State(requiresAuth, authenticated, token, frames, settled)
    }

    constructor (requiresAuth: bool, baseHeaders: Headers)
      ensures Model() == Created(requiresAuth) && Inv(Model()) && this.baseHeaders == baseHeaders
    {
      this.requiresAuth, this.baseHeaders := requiresAuth, baseHeaders;
      authenticated, token, frames, settled := !requiresAuth, None, [], [];
    }

    /** Later requests carry the credential of the frame that committed, or none if none did, and every other header of the connection. */
    method ResolveSubContext() returns (request: Headers)
      requires Inv(Model())
      ensures forall i: nat :: Committed(Model(), i) ==> Credential(request) == CredentialOf(frames[i].token)
      ensures (forall i: nat :: !Committed(Model(), i)) ==> Credential(request) == None
      ensures request - {AUTHORIZATION} == baseHeaders - {AUTHORIZATION}
    {
      request := BuildAuthRequest(baseHeaders, token);
      RequestDependsOnTokenAlone(baseHeaders, baseHeaders, token, token);
    }

    method BeginAuth(raw: RawToken) returns (outcome: Option<Outcome>, request: Headers)
      requires Inv(Model())
      modifies this
      ensures Model() == Feed(old(Model()), raw) && Inv(Model())
      ensures outcome == frames[|frames| - 1].outcome
      ensures outcome.None? ==> request == BuildAuthRequest(baseHeaders, Normalize(raw))
    {
      hide Inv;
      FeedKeeps(Model(), raw);
      frames := frames + [AuthFrame(Normalize(raw), None)];
      request := map[];
      if authenticated {
        outcome := Some(Authenticated(false));
        frames := frames[|frames| - 1 := frames[|frames| - 1].(outcome := outcome)];
        settled := settled + [|frames| - 1];
        return;
      }
      var token := if raw.Text? && |raw.s| > 0 then Some(raw.s) else None;
      request := BuildAuthRequest(baseHeaders, token);
      outcome := None;
    }

    /** `mine` is the token the frame normalized before its `await`. */
    method ResumeAuth(mine: Option<string>, resolution: Resolution, ghost i: nat) returns (outcome: Outcome)
      requires Inv(Model()) && Waiting(Model(), i) && frames[i].token == mine
      modifies this
      ensures Model() == Resume(old(Model()), i, resolution) && Inv(Model())
      ensures frames[i].outcome == Some(outcome)
    {
      hide Inv;
      ResumeKeeps(Model(), i, resolution);
      if authenticated {
        outcome := Authenticated(false);
      } else if resolution == Unavailable {
        outcome := CloseTransient;
      } else if resolution == Rejected {
        outcome := CloseAuthFailed;
      } else {
        token := mine;
        authenticated := true;
        outcome := Authenticated(true);
      }
      frames := frames[i := frames[i].(outcome := Some(outcome))];
      settled := settled + [i];
    }
  }
}
