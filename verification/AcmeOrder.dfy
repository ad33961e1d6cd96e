/** The validation loop of `obtain_certificate` and the HTTP-01 token store, against any behaviour of the ACME
    server (section 8.3 of RFC 8555). */
module AcmeOrder {
  import opened Wrappers

  datatype Challenge = Challenge(domain: string, token: string, keyAuth: string)

  /** Everything the server answers: by iteration of the loop, and within one by position in the list of
      authorizations. `authorizations(i)` is `None` when the request fails. */
  datatype AcmeServer = AcmeServer(
    refreshes: nat -> bool,
    confirms: nat -> bool,
    authorizations: nat -> Option<seq<Challenge>>,
    validates: (nat, nat) -> bool,
    refreshesAfter: (nat, nat) -> bool)

  datatype ChallengeType = Http01 | Dns01

  datatype Failure =
    | RefreshFailed
    | AuthorizationsFailed
    | NoChallengeServer
    | ValidationFailed(domain: string)
    | RefreshAfterValidationFailed
    | DnsNotImplemented
    | TimedOut

  datatype Outcome = Confirmed | Failed(failure: Failure)

  /** A request to validate what stands at `place` in the list of iteration `attempt`, with what the token store
      answered at that moment. */
  datatype Submission = Submission(attempt: nat, place: nat, challenge: Challenge, served: Option<string>)

  /** A wait at the end of iteration `attempt`. */
  datatype Wait = Wait(attempt: nat, ms: nat)

  const MAX_ATTEMPTS: nat := 121
  const FIRST_BACKOFF: nat := 1000
  const MAX_BACKOFF: nat := 15_000

  /** `HttpChallengeServer` */
  class HttpChallengeServer {
    var challenges: map<string, string>

    constructor ()
      ensures challenges == map[]
    {
      challenges := map[];
    }

    method AddChallenge(token: string, keyAuth: string)
      modifies this
      ensures challenges == old(challenges)[token := keyAuth]
    {
      challenges := challenges[token := keyAuth];
    }

    method RemoveChallenge(token: string)
      modifies this
      ensures challenges == old(challenges) - {token}
    {
      challenges := challenges - {token};
    }

    /** `get_challenge_response` */
    function ChallengeResponse(token: string): (response: Option<string>)
      reads this
    {
      if token in challenges then Some(challenges[token]) else None
    }
  }

  // ---------- Waiting ----------

  function Doubled(backoff: nat): nat {
    if backoff * 2 < MAX_BACKOFF then backoff * 2 else MAX_BACKOFF
  }

  /** The length of the wait number `n`, in milliseconds. */
  function Backoff(n: nat): nat {
    if n == 0 then FIRST_BACKOFF else Doubled(Backoff(n - 1))
  }

  function Total(sleeps: seq<Wait>): nat {
    if sleeps == [] then 0 else Total(sleeps[..|sleeps| - 1]) + sleeps[|sleeps| - 1].ms
  }

  predicate BacksOff(sleeps: seq<Wait>) {
    forall k :: 0 <= k < |sleeps| ==> sleeps[k].ms == Backoff(k)
  }

  lemma EarlyBackoffs()
    ensures Backoff(0) == 1000 && Backoff(1) == 2000 && Backoff(2) == 4000 && Backoff(3) == 8000
  {
    assert Backoff(1) == Doubled(Backoff(0)) && Backoff(2) == Doubled(Backoff(1)) && Backoff(3) == Doubled(Backoff(2));
  }

  /** From the fifth wait on it is the longest one. */
  lemma {:induction false} BackoffSettles(n: nat)
    requires n >= 4
    ensures Backoff(n) == MAX_BACKOFF
    decreases n
  {
    if n > 4 {
      BackoffSettles(n - 1);
    } else {
      EarlyBackoffs();
      assert Backoff(4) == Doubled(Backoff(3));
    }
  }

  /** The total of the first `n` waits, in closed form. */
  function TotalOf(n: nat): nat {
    if n == 0 then 0 else if n == 1 then 1000 else if n == 2 then 3000 else if n == 3 then 7000
    else 15_000 * (n - 3)
  }

  lemma {:induction false} TotalBackoff(sleeps: seq<Wait>)
    requires BacksOff(sleeps)
    ensures Total(sleeps) == TotalOf(|sleeps|)
    decreases |sleeps|
  {
    if sleeps != [] {
      var n := |sleeps| - 1;
      TotalBackoff(sleeps[..n]);
      EarlyBackoffs();
      if n >= 4 {
        BackoffSettles(n);
      }
    }
  }

  /** All the waiting of one order takes at most 29.5 minutes, and that much if it waits every time. */
  lemma WaitingIsBounded(sleeps: seq<Wait>)
    requires BacksOff(sleeps) && |sleeps| <= MAX_ATTEMPTS
    ensures Total(sleeps) <= 1_770_000
    ensures |sleeps| == MAX_ATTEMPTS ==> Total(sleeps) == 1_770_000
  {
    TotalBackoff(sleeps);
  }

  // ---------- Tokens ----------

  function Tokens(submitted: seq<Submission>): set<string> {
    set s | s in submitted :: s.challenge.token
  }

  predicate OncePerToken(submitted: seq<Submission>) {
    forall i, j :: 0 <= i < j < |submitted| ==> submitted[i].challenge.token != submitted[j].challenge.token
  }

  /** Each validation was requested while the store served the key authorization of its token. */
  predicate ServedWhenSubmitted(submitted: seq<Submission>) {
    forall i :: 0 <= i < |submitted| ==> submitted[i].served == Some(submitted[i].challenge.keyAuth)
  }

  /** Every token that iteration `attempt` was offered has been submitted in it or before. */
  predicate AllSubmitted(auths: Option<seq<Challenge>>, submitted: seq<Submission>) {
    auths.Some? ==> forall a :: a in auths.value ==> a.token in Tokens(submitted)
  }

  /** Only challenges that the server offered are submitted. */
  predicate OnlyOffered(acme: AcmeServer, attempts: nat, submitted: seq<Submission>) {
    forall i :: 0 <= i < |submitted| ==>
      var s := submitted[i];
      && 1 <= s.attempt <= attempts && acme.authorizations(s.attempt).Some?
      && s.place < |acme.authorizations(s.attempt).value|
      && s.challenge == acme.authorizations(s.attempt).value[s.place]
  }

  /** The server has accepted the validation, and the refresh after it went well. */
  predicate Accepted(acme: AcmeServer, s: Submission) {
    acme.validates(s.attempt, s.place) && acme.refreshesAfter(s.attempt, s.place)
  }

  predicate AllAccepted(acme: AcmeServer, submitted: seq<Submission>) {
    forall i :: 0 <= i < |submitted| ==> Accepted(acme, submitted[i])
  }

  /** What holds of the requests of the first `attempts` iterations. */
  predicate Protocol(acme: AcmeServer, attempts: nat, submitted: seq<Submission>) {
    OncePerToken(submitted) && ServedWhenSubmitted(submitted) && OnlyOffered(acme, attempts, submitted)
  }

  /** `submitted` is `before` and requests of iteration `attempt`. */
  predicate Continues(before: seq<Submission>, attempt: nat, submitted: seq<Submission>) {
    && before <= submitted
    && (forall i :: |before| <= i < |submitted| ==> submitted[i].attempt == attempt)
    && (forall i, j :: |before| <= i < j < |submitted| ==> submitted[i].place < submitted[j].place)
  }

  lemma OneMoreSubmission(acme: AcmeServer, before: seq<Submission>, submitted: seq<Submission>, s: Submission)
    requires s.attempt >= 1 && Protocol(acme, s.attempt, submitted) && Continues(before, s.attempt, submitted)
    requires s.challenge.token !in Tokens(submitted) && s.served == Some(s.challenge.keyAuth)
    requires acme.authorizations(s.attempt).Some? && s.place < |acme.authorizations(s.attempt).value|
    requires s.challenge == acme.authorizations(s.attempt).value[s.place]
    requires forall i :: |before| <= i < |submitted| ==> submitted[i].place < s.place
    ensures var more := submitted + [s];
      && Protocol(acme, s.attempt, more) && Continues(before, s.attempt, more)
      && Tokens(more) == Tokens(submitted) + {s.challenge.token}
      && Domains(more) == Domains(submitted) + {s.challenge.domain}
  {
  }

  /** What an ended order leaves in the token store: nothing of its own, except the token of a validation that
      failed or could not be followed up. */
  predicate LeftInStore(
    before: map<string, string>, submitted: seq<Submission>, outcome: Outcome, after: map<string, string>)
  {
    if outcome.Failed? && (outcome.failure.ValidationFailed? || outcome.failure.RefreshAfterValidationFailed?) then
      && submitted != []
      && var last := submitted[|submitted| - 1].challenge;
         after == (before - Tokens(submitted))[last.token := last.keyAuth]
    else after == before - Tokens(submitted)
  }

  function Domains(submitted: seq<Submission>): set<string> {
    set s | s in submitted :: s.challenge.domain
  }

  /** The domains whose validation was requested in the first `attempt` iterations. */
  function DomainsBy(submitted: seq<Submission>, attempt: nat): set<string> {
    set s | s in submitted && s.attempt <= attempt :: s.challenge.domain
  }

  predicate WaitedAt(sleeps: seq<Wait>, attempt: nat) {
    exists k :: 0 <= k < |sleeps| && sleeps[k].attempt == attempt
  }

  /** An iteration ended in a wait exactly if all domains had been submitted by then. */
  predicate WaitsWhenAllSubmitted(domains: seq<string>, submitted: seq<Submission>, sleeps: seq<Wait>, attempt: nat) {
    WaitedAt(sleeps, attempt) <==> |DomainsBy(submitted, attempt)| >= |domains|
  }

  /** Before iteration `attempt`, all that was offered was submitted, and the waits were where they should be. */
  predicate Paced(
    acme: AcmeServer, domains: seq<string>, attempt: nat, submitted: seq<Submission>, sleeps: seq<Wait>)
  {
    forall k :: 1 <= k < attempt ==>
      AllSubmitted(acme.authorizations(k), submitted) && WaitsWhenAllSubmitted(domains, submitted, sleeps, k)
  }

  // ---------- The loop ----------

  /** The loop over the authorizations of iteration `round`, for which `order.authorizations()` gave `auths`.
      `before` are the submissions of earlier iterations, and `initial` is the store at the start of the order. */
  method SubmitChallenges(
    acme: AcmeServer, round: nat, auths: seq<Challenge>, challengeType: ChallengeType, store: HttpChallengeServer?,
    handledTokens: set<string>, validatedDomains: set<string>, before: seq<Submission>,
    ghost initial: map<string, string>)
    returns (handled: set<string>, validated: set<string>, submitted: seq<Submission>, failure: Option<Failure>)
    requires handledTokens == Tokens(before) && validatedDomains == Domains(before)
    requires acme.authorizations(round) == Some(auths) && round >= 1 && Protocol(acme, round, before)
    requires store != null ==> store.challenges == initial - Tokens(before)
    requires AllAccepted(acme, before)
    modifies store
    ensures Protocol(acme, round, submitted) && Continues(before, round, submitted)
    ensures failure.None? ==>
      handled == Tokens(submitted) && validated == Domains(submitted) && AllSubmitted(Some(auths), submitted)
    ensures store == null || challengeType == Dns01 ==> submitted == before
    ensures store != null ==>
      LeftInStore(initial, submitted, if failure.None? then Confirmed else Failed(failure.value), store.challenges)
    ensures EndsRound(acme, auths, challengeType, store != null, before, submitted, failure)
  {
    hide Protocol, AllSubmitted, LeftInStore, AllAccepted, EndsRound, Tokens, Domains;
    handled, validated, submitted := handledTokens, validatedDomains, before;
    for k := 0 to |auths|
      invariant Protocol(acme, round, submitted) && Continues(before, round, submitted)
      invariant handled == Tokens(submitted) && validated == Domains(submitted)
      invariant forall i :: 0 <= i < k ==> auths[i].token in handled
      invariant forall i :: |before| <= i < |submitted| ==> submitted[i].place < k
      invariant AllAccepted(acme, submitted) && (challengeType == Dns01 ==> k == 0)
      invariant store == null || challengeType == Dns01 ==> submitted == before
      invariant store != null ==> store.challenges == initial - Tokens(submitted)
    {
      var challenge := auths[k];
      if challengeType == Dns01 {
        RoundEndsEarly(acme, auths, challengeType, store != null, before, Some(DnsNotImplemented));
        NothingLeft(initial, submitted, DnsNotImplemented);
        return handled, validated, submitted, Some(DnsNotImplemented);
      }
      if challenge.token in handled {
        continue;
      }
      if store == null {
        RoundEndsEarly(acme, auths, challengeType, false, before, Some(NoChallengeServer));
        return handled, validated, submitted, Some(NoChallengeServer);
      }
      ghost var accepted := submitted;
      var refusal: Option<Failure>;
      submitted, refusal := SubmitOne(acme, round, k, auths, store, before, submitted, initial);
      if refusal.Some? {
        return handled, validated, submitted, refusal;
      }
      validated := validated + {challenge.domain};
      handled := handled + {challenge.token};
      store.RemoveChallenge(challenge.token);
      StoredAgain(initial, Tokens(accepted), challenge.token, challenge.keyAuth);
    }
    assert AllSubmitted(Some(auths), submitted) by { AllAreSubmitted(auths, submitted); }
    if store == null {
      RoundEndsEarly(acme, auths, challengeType, false, before, None);
    } else {
      RoundEndsWell(acme, auths, challengeType, before, submitted);
    }
    NothingLeft(initial, submitted, TimedOut);
    return handled, validated, submitted, None;
  }

  /** One token: it is stored, its validation is requested, and the order refreshed. */
  method SubmitOne(
    acme: AcmeServer, round: nat, k: nat, auths: seq<Challenge>, store: HttpChallengeServer, before: seq<Submission>,
    accepted: seq<Submission>, ghost initial: map<string, string>)
    returns (submitted: seq<Submission>, refusal: Option<Failure>)
    requires acme.authorizations(round) == Some(auths) && round >= 1 && k < |auths|
    requires Protocol(acme, round, accepted) && Continues(before, round, accepted) && AllAccepted(acme, accepted)
    requires auths[k].token !in Tokens(accepted) && store.challenges == initial - Tokens(accepted)
    requires |before| <= |accepted| && forall i :: |before| <= i < |accepted| ==> accepted[i].place < k
    modifies store
    ensures submitted == accepted + [Submission(round, k, auths[k], Some(auths[k].keyAuth))]
    ensures Protocol(acme, round, submitted) && Continues(before, round, submitted)
    ensures Tokens(submitted) == Tokens(accepted) + {auths[k].token}
    ensures Domains(submitted) == Domains(accepted) + {auths[k].domain}
    ensures store.challenges == (initial - Tokens(submitted))[auths[k].token := auths[k].keyAuth]
    ensures refusal.None? ==> AllAccepted(acme, submitted)
    ensures refusal.Some? ==>
      && EndsRound(acme, auths, Http01, true, before, submitted, refusal)
      && LeftInStore(initial, submitted, Failed(refusal.value), store.challenges)
  {
    hide Protocol, LeftInStore, EndsRound, AllAccepted, Continues, Tokens, Domains;
    var challenge := auths[k];
    store.AddChallenge(challenge.token, challenge.keyAuth);
    var submission := Submission(round, k, challenge, store.ChallengeResponse(challenge.token));
    OneMoreSubmission(acme, before, accepted, submission);
    submitted := accepted + [submission];
    StoredAgain(initial, Tokens(accepted), challenge.token, challenge.keyAuth);
    refusal := None;
    if !acme.validates(round, k) {
      refusal := Some(ValidationFailed(challenge.domain));
    } else if !acme.refreshesAfter(round, k) {
      refusal := Some(RefreshAfterValidationFailed);
    }
    if refusal.Some? {
      RoundIsRefused(acme, auths, before, accepted, submission, refusal.value);
      LastIsLeft(initial, submitted, refusal.value);
    } else {
      OneMoreAccepted(acme, accepted, submission);
    }
  }

  lemma StoredAgain(initial: map<string, string>, tokens: set<string>, token: string, keyAuth: string)
    ensures (initial - tokens)[token := keyAuth] == (initial - (tokens + {token}))[token := keyAuth]
    ensures (initial - (tokens + {token}))[token := keyAuth] - {token} == initial - (tokens + {token})
  {
  }

  lemma OneMoreAccepted(acme: AcmeServer, submitted: seq<Submission>, s: Submission)
    requires AllAccepted(acme, submitted) && Accepted(acme, s)
    ensures AllAccepted(acme, submitted + [s])
  {
  }

  lemma AllAreSubmitted(auths: seq<Challenge>, submitted: seq<Submission>)
    requires forall i :: 0 <= i < |auths| ==> auths[i].token in Tokens(submitted)
    ensures AllSubmitted(Some(auths), submitted)
  {
  }

  lemma NothingLeft(initial: map<string, string>, submitted: seq<Submission>, failure: Failure)
    ensures LeftInStore(initial, submitted, Confirmed, initial - Tokens(submitted))
    ensures !failure.ValidationFailed? && !failure.RefreshAfterValidationFailed? ==>
      LeftInStore(initial, submitted, Failed(failure), initial - Tokens(submitted))
  {
  }

  lemma LastIsLeft(initial: map<string, string>, submitted: seq<Submission>, failure: Failure)
    requires (failure.ValidationFailed? || failure.RefreshAfterValidationFailed?) && submitted != []
    ensures var last := submitted[|submitted| - 1].challenge;
      LeftInStore(initial, submitted, Failed(failure), (initial - Tokens(submitted))[last.token := last.keyAuth])
  {
  }

  /** A round has made a submission that the server did not take, and which one it was. */
  predicate Refused(acme: AcmeServer, before: seq<Submission>, submitted: seq<Submission>) {
    |before| < |submitted| && !acme.validates(submitted[|submitted| - 1].attempt, submitted[|submitted| - 1].place)
  }

  predicate NotFollowedUp(acme: AcmeServer, before: seq<Submission>, submitted: seq<Submission>) {
    && |before| < |submitted|
    && var last := submitted[|submitted| - 1];
       acme.validates(last.attempt, last.place) && !acme.refreshesAfter(last.attempt, last.place)
  }

  /** How a round over the authorizations ends, exactly. */
  predicate EndsRound(
    acme: AcmeServer, auths: seq<Challenge>, challengeType: ChallengeType, hasStore: bool, before: seq<Submission>,
    submitted: seq<Submission>, failure: Option<Failure>)
  {
    && (failure == Some(DnsNotImplemented) <==> challengeType == Dns01 && auths != [])
    && (failure == Some(NoChallengeServer) <==>
          challengeType == Http01 && !hasStore && exists a :: a in auths && a.token !in Tokens(before))
    && (failure.Some? && failure.value.ValidationFailed? <==> Refused(acme, before, submitted))
    && (Refused(acme, before, submitted) ==>
          failure == Some(ValidationFailed(submitted[|submitted| - 1].challenge.domain)))
    && (failure == Some(RefreshAfterValidationFailed) <==> NotFollowedUp(acme, before, submitted))
    && failure != Some(RefreshFailed) && failure != Some(AuthorizationsFailed) && failure != Some(TimedOut)
    && AllAccepted(acme,
         if Refused(acme, before, submitted) || NotFollowedUp(acme, before, submitted)
         then submitted[..|submitted| - 1] else submitted)
  }

  lemma RoundEndsEarly(
    acme: AcmeServer, auths: seq<Challenge>, challengeType: ChallengeType, hasStore: bool, before: seq<Submission>,
    failure: Option<Failure>)
    requires AllAccepted(acme, before)
    requires failure == if challengeType == Dns01 && auths != [] then Some(DnsNotImplemented)
                        else if !hasStore && exists a :: a in auths && a.token !in Tokens(before)
                        then Some(NoChallengeServer) else None
    ensures EndsRound(acme, auths, challengeType, hasStore, before, before, failure)
  {
  }

  lemma RoundWithoutFailure(
    acme: AcmeServer, auths: seq<Challenge>, challengeType: ChallengeType, hasStore: bool, before: seq<Submission>,
    submitted: seq<Submission>)
    requires EndsRound(acme, auths, challengeType, hasStore, before, submitted, None)
    ensures AllAccepted(acme, submitted)
  {
  }

  lemma RoundEndsWell(
    acme: AcmeServer, auths: seq<Challenge>, challengeType: ChallengeType, before: seq<Submission>,
    submitted: seq<Submission>)
    requires AllAccepted(acme, submitted) && (challengeType == Dns01 ==> auths == [])
    ensures EndsRound(acme, auths, challengeType, true, before, submitted, None)
  {
  }

  lemma RoundIsRefused(
    acme: AcmeServer, auths: seq<Challenge>, before: seq<Submission>, submitted: seq<Submission>, last: Submission,
    failure: Failure)
    requires AllAccepted(acme, submitted) && |before| <= |submitted| && !Accepted(acme, last)
    requires failure == if !acme.validates(last.attempt, last.place) then ValidationFailed(last.challenge.domain)
                        else RefreshAfterValidationFailed
    ensures EndsRound(acme, auths, Http01, true, before, submitted + [last], Some(failure))
  {
    var more := submitted + [last];
    assert more[..|more| - 1] == submitted;
  }

  /** The server lets the first `attempts` iterations pass without a decision. */
  predicate Undecided(acme: AcmeServer, attempts: nat) {
    forall k :: 1 <= k <= attempts ==> acme.refreshes(k) && !acme.confirms(k) && acme.authorizations(k).Some?
  }

  /** At most one wait in each of the first `attempts` iterations, each as long as the backoff says. */
  predicate WaitsFit(sleeps: seq<Wait>, attempts: nat) {
    && |sleeps| <= attempts && BacksOff(sleeps)
    && (forall k :: 0 <= k < |sleeps| ==> 1 <= sleeps[k].attempt <= attempts)
    && (forall j, k :: 0 <= j < k < |sleeps| ==> sleeps[j].attempt < sleeps[k].attempt)
  }

  /** Before iteration `attempts + 1`: what the loop has done so far. */
  predicate Progress(
    acme: AcmeServer, domains: seq<string>, attempts: nat, submitted: seq<Submission>, sleeps: seq<Wait>)
  {
    && Protocol(acme, attempts, submitted) && WaitsFit(sleeps, attempts) && AllAccepted(acme, submitted)
    && Paced(acme, domains, attempts + 1, submitted, sleeps) && Undecided(acme, attempts)
  }

  /** The last request of iteration `attempts` was the last one of all, and the server did not take it. */
  predicate LastRefused(acme: AcmeServer, attempts: nat, submitted: seq<Submission>) {
    && submitted != []
    && var last := submitted[|submitted| - 1]; last.attempt == attempts && !acme.validates(attempts, last.place)
  }

  predicate LastNotFollowedUp(acme: AcmeServer, attempts: nat, submitted: seq<Submission>) {
    && submitted != []
    && var last := submitted[|submitted| - 1];
       last.attempt == attempts && acme.validates(attempts, last.place) && !acme.refreshesAfter(attempts, last.place)
  }

  /** The server is asked for the authorizations of iteration `attempts`. */
  predicate AsksIn(acme: AcmeServer, attempts: nat) {
    acme.refreshes(attempts) && !acme.confirms(attempts)
  }

  /** How iteration `attempts` ends the order: exactly which answer of the server, or which configuration, makes which
      outcome. */
  predicate EndedAs(
    acme: AcmeServer, attempts: nat, submitted: seq<Submission>, challengeType: ChallengeType, hasStore: bool,
    outcome: Outcome)
  {
    var auths := acme.authorizations(attempts);
    var offered := AsksIn(acme, attempts) && auths.Some? && auths.value != [];
    && (outcome == Confirmed <==> acme.refreshes(attempts) && acme.confirms(attempts))
    && (outcome == Failed(RefreshFailed) <==> !acme.refreshes(attempts))
    && (outcome == Failed(AuthorizationsFailed) <==> AsksIn(acme, attempts) && auths.None?)
    && (outcome == Failed(DnsNotImplemented) <==> offered && challengeType == Dns01)
    && (outcome == Failed(NoChallengeServer) <==> offered && challengeType == Http01 && !hasStore)
    && (outcome.Failed? && outcome.failure.ValidationFailed? <==> LastRefused(acme, attempts, submitted))
    && (LastRefused(acme, attempts, submitted) ==>
          outcome == Failed(ValidationFailed(submitted[|submitted| - 1].challenge.domain)))
    && (outcome == Failed(RefreshAfterValidationFailed) <==> LastNotFollowedUp(acme, attempts, submitted))
    && AllAccepted(acme,
         if LastRefused(acme, attempts, submitted) || LastNotFollowedUp(acme, attempts, submitted)
         then submitted[..|submitted| - 1] else submitted)
    && outcome != Failed(TimedOut)
  }

  /** When iteration `attempts` ended the order, other than by a time-out. */
  predicate Ended(
    acme: AcmeServer, domains: seq<string>, attempts: nat, submitted: seq<Submission>, sleeps: seq<Wait>,
    challengeType: ChallengeType, hasStore: bool, outcome: Outcome)
    requires attempts >= 1
  {
    && Protocol(acme, attempts, submitted) && WaitsFit(sleeps, attempts)
    && Paced(acme, domains, attempts, submitted, sleeps) && Undecided(acme, attempts - 1)
    && EndedAs(acme, attempts, submitted, challengeType, hasStore, outcome)
  }

  lemma EndsBeforeRound(
    acme: AcmeServer, attempts: nat, submitted: seq<Submission>, challengeType: ChallengeType, hasStore: bool,
    outcome: Outcome)
    requires attempts >= 1 && Protocol(acme, attempts - 1, submitted) && AllAccepted(acme, submitted)
    requires AsksIn(acme, attempts) ==> acme.authorizations(attempts).None?
    requires outcome == if !acme.refreshes(attempts) then Failed(RefreshFailed)
                        else if acme.confirms(attempts) then Confirmed else Failed(AuthorizationsFailed)
    ensures EndedAs(acme, attempts, submitted, challengeType, hasStore, outcome)
  {
  }

  lemma EndsInRound(
    acme: AcmeServer, attempts: nat, before: seq<Submission>, submitted: seq<Submission>, challengeType: ChallengeType,
    hasStore: bool, failure: Failure)
    requires attempts >= 1 && AsksIn(acme, attempts) && acme.authorizations(attempts).Some?
    requires Protocol(acme, attempts - 1, before) && Continues(before, attempts, submitted)
    requires !hasStore || challengeType == Dns01 ==> before == []
    requires EndsRound(
      acme, acme.authorizations(attempts).value, challengeType, hasStore, before, submitted, Some(failure))
    ensures EndedAs(acme, attempts, submitted, challengeType, hasStore, Failed(failure)) && failure != TimedOut
  {
    var auths := acme.authorizations(attempts).value;
    assert Refused(acme, before, submitted) == LastRefused(acme, attempts, submitted);
    assert NotFollowedUp(acme, before, submitted) == LastNotFollowedUp(acme, attempts, submitted);
    if auths != [] && before == [] {
      assert auths[0] in auths && auths[0].token !in Tokens(before);
    }
  }

  /** One iteration, up to the test of the number of attempts. */
  method Iterate(
    acme: AcmeServer, domains: seq<string>, challengeType: ChallengeType, store: HttpChallengeServer?, attempts: nat,
    handledTokens: set<string>, validatedDomains: set<string>, before: seq<Submission>, waited: seq<Wait>,
    backoffMs: nat, ghost initial: map<string, string>)
    returns (end: Option<Outcome>, handled: set<string>, validated: set<string>, submitted: seq<Submission>,
      sleeps: seq<Wait>, backoff: nat)
    requires backoffMs == Backoff(|waited|)
    requires 1 <= attempts <= MAX_ATTEMPTS && Progress(acme, domains, attempts - 1, before, waited)
    requires handledTokens == Tokens(before) && validatedDomains == Domains(before)
    requires store != null ==> store.challenges == initial - Tokens(before)
    requires store == null || challengeType == Dns01 ==> before == []
    modifies store
    ensures store == null || challengeType == Dns01 ==> submitted == []
    ensures end.None? ==>
      && Progress(acme, domains, attempts, submitted, sleeps)
      && handled == Tokens(submitted) && validated == Domains(submitted) && backoff == Backoff(|sleeps|)
    ensures end.Some? ==>
      && Ended(acme, domains, attempts, submitted, sleeps, challengeType, store != null, end.value)
      && end.value != Failed(TimedOut)
    ensures store != null ==>
      LeftInStore(initial, submitted, if end.None? then Confirmed else end.value, store.challenges)
  {
    hide Paced, Protocol, WaitsFit, Undecided, AllSubmitted, Continues, EndedAs, AllAccepted, LeftInStore;
    NothingLeft(initial, before, RefreshFailed);
    NothingLeft(initial, before, AuthorizationsFailed);
    end, handled, validated, submitted, sleeps, backoff :=
      None, handledTokens, validatedDomains, before, waited, backoffMs;
    NextIteration(acme, attempts - 1, submitted, sleeps);
    if !acme.refreshes(attempts) {
      end := Some(Failed(RefreshFailed));
      EndsBeforeRound(acme, attempts, before, challengeType, store != null, end.value);
      return;
    }
    if acme.confirms(attempts) {
      end := Some(Confirmed);
      EndsBeforeRound(acme, attempts, before, challengeType, store != null, end.value);
      return;
    }
    var auths := acme.authorizations(attempts);
    if auths.None? {
      end := Some(Failed(AuthorizationsFailed));
      EndsBeforeRound(acme, attempts, before, challengeType, store != null, end.value);
      return;
    }
    var failure;
    handled, validated, submitted, failure :=
      SubmitChallenges(acme, attempts, auths.value, challengeType, store, handled, validated, submitted, initial);
    EarlierIterationsStand(acme, domains, attempts, before, submitted, waited);
    hide EndsRound;
    if failure.Some? {
      end := Some(Failed(failure.value));
      EndsInRound(acme, attempts, before, submitted, challengeType, store != null, failure.value);
      return;
    }
    assert AllAccepted(acme, submitted) by {
      RoundWithoutFailure(acme, auths.value, challengeType, store != null, before, submitted);
    }
    if |validated| >= |domains| {
      sleeps := sleeps + [Wait(attempts, backoff)];
      backoff := Doubled(backoff);
    }
    WaitedOrNot(acme, domains, attempts, submitted, waited, sleeps);
  }

  /** The loop of `obtain_certificate`. `submitted` are the validations it requested, and `sleeps` its waits. */
  method AwaitValidations(
    acme: AcmeServer, domains: seq<string>, challengeType: ChallengeType, store: HttpChallengeServer?)
    returns (outcome: Outcome, attempts: nat, submitted: seq<Submission>, sleeps: seq<Wait>)
    requires domains != []
    modifies store
    ensures 1 <= attempts <= MAX_ATTEMPTS && Total(sleeps) <= 1_770_000
    ensures if outcome == Failed(TimedOut)
            then attempts == MAX_ATTEMPTS && Progress(acme, domains, attempts, submitted, sleeps)
            else Ended(acme, domains, attempts, submitted, sleeps, challengeType, store != null, outcome)
    ensures store != null ==> LeftInStore(old(store.challenges), submitted, outcome, store.challenges)
    ensures store != null && outcome == Confirmed ==>
      forall s :: s in submitted ==> s.challenge.token !in store.challenges
    ensures store != null ==> forall token :: (forall s :: s in submitted ==> s.challenge.token != token) ==>
      && (token in store.challenges <==> token in old(store.challenges))
      && (token in store.challenges ==> store.challenges[token] == old(store.challenges)[token])
    ensures challengeType == Http01 && store != null ==>
      forall n :: 1 <= n <= MAX_ATTEMPTS && ConfirmsFirstIn(acme, n) && TakesEverything(acme, n) ==>
        outcome == Confirmed && attempts == n
  {
    outcome, attempts, submitted, sleeps := Loop(acme, domains, challengeType, store);
    forall token ensures token in Tokens(submitted) <==> exists s :: s in submitted && s.challenge.token == token {
    }
    forall n | challengeType == Http01 && store != null
      && 1 <= n <= MAX_ATTEMPTS && ConfirmsFirstIn(acme, n) && TakesEverything(acme, n)
      ensures outcome == Confirmed && attempts == n
    {
      IsConfirmed(acme, domains, challengeType, outcome, attempts, submitted, sleeps, n);
    }
  }

  /** The server confirms in iteration `n` and not before. */
  predicate ConfirmsFirstIn(acme: AcmeServer, n: nat) {
    acme.confirms(n) && forall k :: 1 <= k < n ==> !acme.confirms(k)
  }

  /** It answers every request of the first `n` iterations and refuses nothing. */
  ghost predicate TakesEverything(acme: AcmeServer, n: nat) {
    && (forall k :: 1 <= k <= n ==> acme.refreshes(k) && acme.authorizations(k).Some?)
    && (forall k, p: nat :: 1 <= k <= n ==> acme.validates(k, p) && acme.refreshesAfter(k, p))
  }

  /** The order is confirmed in the first iteration in which the server confirms it. */
  lemma IsConfirmed(
    acme: AcmeServer, domains: seq<string>, challengeType: ChallengeType, outcome: Outcome, attempts: nat,
    submitted: seq<Submission>, sleeps: seq<Wait>, n: nat)
    requires 1 <= n <= MAX_ATTEMPTS && ConfirmsFirstIn(acme, n) && TakesEverything(acme, n)
    requires challengeType == Http01 && 1 <= attempts <= MAX_ATTEMPTS
    requires if outcome == Failed(TimedOut)
             then attempts == MAX_ATTEMPTS && Progress(acme, domains, attempts, submitted, sleeps)
             else Ended(acme, domains, attempts, submitted, sleeps, challengeType, true, outcome)
    ensures outcome == Confirmed && attempts == n
  {
    hide Protocol, WaitsFit, Paced, AllAccepted;
    assert Undecided(acme, if outcome == Failed(TimedOut) then attempts else attempts - 1);
    assert acme.confirms(n) && attempts <= n && outcome != Failed(TimedOut);
    assert acme.refreshes(attempts) && acme.authorizations(attempts).Some?;
    assert !LastRefused(acme, attempts, submitted) && !LastNotFollowedUp(acme, attempts, submitted);
  }

  method Loop(
    acme: AcmeServer, domains: seq<string>, challengeType: ChallengeType, store: HttpChallengeServer?)
    returns (outcome: Outcome, attempts: nat, submitted: seq<Submission>, sleeps: seq<Wait>)
    requires domains != []
    modifies store
    ensures 1 <= attempts <= MAX_ATTEMPTS && Total(sleeps) <= 1_770_000
    ensures if outcome == Failed(TimedOut)
            then attempts == MAX_ATTEMPTS && Progress(acme, domains, attempts, submitted, sleeps)
            else Ended(acme, domains, attempts, submitted, sleeps, challengeType, store != null, outcome)
    ensures store != null ==> LeftInStore(old(store.challenges), submitted, outcome, store.challenges)
  {
    hide EndedAs, Paced, Protocol, Undecided;
    Beginning(acme, domains);
    var validated: set<string> := {};
    var handled: set<string> := {};
    var backoff := FIRST_BACKOFF;
    ghost var initial := if store == null then map[] else store.challenges;
    attempts, submitted, sleeps := 0, [], [];
    while true
      invariant attempts < MAX_ATTEMPTS && Progress(acme, domains, attempts, submitted, sleeps)
      invariant store == null || challengeType == Dns01 ==> submitted == []
      invariant handled == Tokens(submitted) && validated == Domains(submitted) && backoff == Backoff(|sleeps|)
      invariant store != null ==> initial == old(store.challenges) && store.challenges == initial - Tokens(submitted)
      decreases MAX_ATTEMPTS - attempts
    {
      attempts := attempts + 1;
      var end;
      end, handled, validated, submitted, sleeps, backoff := Iterate(
        acme, domains, challengeType, store, attempts, handled, validated, submitted, sleeps, backoff, initial);
      WaitingIsBounded(sleeps);
      if end.Some? {
        return end.value, attempts, submitted, sleeps;
      }
      if attempts > 120 {
        return Failed(TimedOut), attempts, submitted, sleeps;
      }
    }
  }

  lemma Beginning(acme: AcmeServer, domains: seq<string>)
    ensures Progress(acme, domains, 0, [], [])
  {
  }

  lemma NextIteration(acme: AcmeServer, attempts: nat, submitted: seq<Submission>, sleeps: seq<Wait>)
    requires Protocol(acme, attempts, submitted) && WaitsFit(sleeps, attempts) && Undecided(acme, attempts)
    ensures Protocol(acme, attempts + 1, submitted) && WaitsFit(sleeps, attempts + 1)
    ensures var n := attempts + 1;
      acme.refreshes(n) && !acme.confirms(n) && acme.authorizations(n).Some? ==> Undecided(acme, n)
  {
  }

  /** What later iterations submit does not change what was submitted by an earlier one. */
  lemma EarlierIterationsStand(
    acme: AcmeServer, domains: seq<string>, attempt: nat, before: seq<Submission>, submitted: seq<Submission>,
    sleeps: seq<Wait>)
    requires attempt >= 1 && Continues(before, attempt, submitted)
    requires Protocol(acme, attempt - 1, before) && Paced(acme, domains, attempt, before, sleeps)
    ensures Paced(acme, domains, attempt, submitted, sleeps)
    ensures DomainsBy(submitted, attempt) == Domains(submitted)
  {
    forall s | s in before ensures s in submitted && s.attempt < attempt {
      var i :| 0 <= i < |before| && before[i] == s;
      assert submitted[i] == s;
    }
    forall s | s in submitted ensures s.attempt <= attempt && (s.attempt < attempt ==> s in before) {
      var i :| 0 <= i < |submitted| && submitted[i] == s;
      assert i < |before| ==> before[i] == s;
    }
    forall k | 1 <= k < attempt
      ensures AllSubmitted(acme.authorizations(k), submitted)
        && WaitsWhenAllSubmitted(domains, submitted, sleeps, k)
    {
      assert AllSubmitted(acme.authorizations(k), before) && WaitsWhenAllSubmitted(domains, before, sleeps, k);
      assert Tokens(before) <= Tokens(submitted);
      assert DomainsBy(before, k) == DomainsBy(submitted, k);
    }
  }

  lemma OneMoreWaitBacksOff(sleeps: seq<Wait>, wait: Wait)
    requires BacksOff(sleeps) && wait.ms == Backoff(|sleeps|)
    ensures BacksOff(sleeps + [wait])
  {
    hide Backoff;
    var more := sleeps + [wait];
    forall k | 0 <= k < |more| ensures more[k].ms == Backoff(k) {
      assert more[k] == if k < |sleeps| then sleeps[k] else wait;
    }
  }

  lemma OneMoreWaitFits(sleeps: seq<Wait>, attempt: nat)
    requires attempt >= 1 && WaitsFit(sleeps, attempt - 1)
    ensures WaitsFit(sleeps, attempt) && WaitsFit(sleeps + [Wait(attempt, Backoff(|sleeps|))], attempt)
  {
    OneMoreWaitBacksOff(sleeps, Wait(attempt, Backoff(|sleeps|)));
    hide Backoff, BacksOff;
  }

  lemma WaitedOrNot(
    acme: AcmeServer, domains: seq<string>, attempt: nat, submitted: seq<Submission>, before: seq<Wait>,
    sleeps: seq<Wait>)
    requires 1 <= attempt && WaitsFit(before, attempt - 1)
    requires DomainsBy(submitted, attempt) == Domains(submitted)
    requires AllSubmitted(acme.authorizations(attempt), submitted)
    requires sleeps == if |Domains(submitted)| >= |domains|
                       then before + [Wait(attempt, Backoff(|before|))] else before
    requires Paced(acme, domains, attempt, submitted, before)
    ensures Paced(acme, domains, attempt + 1, submitted, sleeps)
    ensures WaitsFit(sleeps, attempt)
  {
    OneMoreWaitFits(before, attempt);
    assert !WaitedAt(before, attempt);
    hide WaitsFit, AllSubmitted, Domains, DomainsBy, Backoff, WaitedAt;
    if |Domains(submitted)| >= |domains| {
      var wait := Wait(attempt, Backoff(|before|));
      forall k | 1 <= k <= attempt ensures WaitsWhenAllSubmitted(domains, submitted, sleeps, k) {
        OneMoreWait(before, wait, k);
        if k < attempt {
          assert WaitsWhenAllSubmitted(domains, submitted, before, k);
        }
      }
    } else {
      assert WaitsWhenAllSubmitted(domains, submitted, sleeps, attempt);
    }
  }

  lemma OneMoreWait(before: seq<Wait>, wait: Wait, attempt: nat)
    ensures WaitedAt(before + [wait], attempt) <==> WaitedAt(before, attempt) || wait.attempt == attempt
  {
    var sleeps := before + [wait];
    assert sleeps[|before|] == wait;
    if WaitedAt(before, attempt) {
      var j :| 0 <= j < |before| && before[j].attempt == attempt;
      assert sleeps[j].attempt == attempt;
    }
  }
}
