/** Asking the oracle for a move (`getNextMoveFromGpt` and `getNextMove` in
    src/app/page.tsx). Each call the retry loop might make is one element of `outcomes`:
    `Some(text)` for a reply, `None` for a call that threw (network error, time-out,
    non-success status). */
module Oracle {
  import opened Wrappers

  /** The number of calls the retry loop may make. */
  const MaxAttempts: nat := 3

  /** The reply of the first successful call among the first `budget` calls. */
  function FirstResponse(outcomes: seq<Option<string>>, budget: nat): (r: Option<string>)
    ensures r.Some? ==>
              exists k :: 0 <= k < budget && k < |outcomes| && outcomes[k] == r &&
                          forall j :: 0 <= j < k ==> outcomes[j].None?
    ensures r.None? ==> forall j :: 0 <= j < budget && j < |outcomes| ==> outcomes[j].None?
  {
    if budget == 0 || outcomes == [] then None
    else if outcomes[0].Some? then outcomes[0]
    else
      FirstResponse(outcomes[1..], budget - 1)
  }

  /** The retry loop: starting with 3 retries left, each failed call takes exactly one away;
      the first reply is returned, and after three failures the loop gives up.
      `attempts` is the number of calls made. */
  method GetNextMoveFromGpt(outcomes: seq<Option<string>>) returns (response: Option<string>, attempts: nat)
    requires |outcomes| >= MaxAttempts
    ensures 1 <= attempts <= MaxAttempts
    ensures response == FirstResponse(outcomes, MaxAttempts)
    ensures forall j :: 0 <= j < attempts - 1 ==> outcomes[j].None?
    ensures response.Some? ==> response == outcomes[attempts - 1]
    ensures response.None? <==> attempts == MaxAttempts && outcomes[MaxAttempts - 1].None?
  {
    var retriesLeft := MaxAttempts;
    attempts := 0;
    while retriesLeft > 0
      invariant 0 <= retriesLeft <= MaxAttempts
      invariant attempts == MaxAttempts - retriesLeft
      invariant forall j :: 0 <= j < attempts ==> outcomes[j].None?
      invariant FirstResponse(outcomes, MaxAttempts) == FirstResponse(outcomes[attempts..], retriesLeft)
    {
      assert outcomes[attempts..][1..] == outcomes[attempts + 1..];
      attempts := attempts + 1;
      if outcomes[attempts - 1].Some? {
        return outcomes[attempts - 1], attempts;
      }
      retriesLeft := retriesLeft - 1;
    }
    response := None;
  }

  /** What `getNextMove` yields: the move read out of the first reply, or nothing when every
      call failed or the reply does not parse. `parse` stands for `JSON.parse(reply).move`. */
  function ParsedMove(outcomes: seq<Option<string>>, parse: string -> Option<string>): Option<string>
  {
    match FirstResponse(outcomes, MaxAttempts)
    case None => None
    case Some(reply) => parse(reply)
  }

  method GetNextMove(outcomes: seq<Option<string>>, parse: string -> Option<string>) returns (move: Option<string>)
    requires |outcomes| >= MaxAttempts
    ensures move == ParsedMove(outcomes, parse)
    ensures move.Some? ==> exists k :: 0 <= k < MaxAttempts && outcomes[k].Some? && parse(outcomes[k].value) == move
  {
    var response, attempts := GetNextMoveFromGpt(outcomes);
    if response.None? {
      return None;
    }
    move := parse(response.value);
  }

  /** Parsing happens after the retry loop, so a reply that does not parse is not retried:
      the move is lost even when a later call would have answered well. */
  lemma MalformedReplyIsNotRetried(outcomes: seq<Option<string>>, parse: string -> Option<string>, k: nat)
    requires k < MaxAttempts && k < |outcomes|
    requires forall j :: 0 <= j < k ==> outcomes[j].None?
    requires outcomes[k].Some? && parse(outcomes[k].value).None?
    ensures ParsedMove(outcomes, parse).None?
  {
    FirstResponseIsFirstSuccess(outcomes, MaxAttempts, k);
  }

  /** Whenever the first success happens within the budget, it is the reply. */
  lemma {:induction false} FirstResponseIsFirstSuccess(outcomes: seq<Option<string>>, budget: nat, k: nat)
    requires k < budget && k < |outcomes|
    requires forall j :: 0 <= j < k ==> outcomes[j].None?
    requires outcomes[k].Some?
    ensures FirstResponse(outcomes, budget) == outcomes[k]
  {
    if k > 0 {
      FirstResponseIsFirstSuccess(outcomes[1..], budget - 1, k - 1);
    }
  }

  /** Only three calls in a row that all fail make the loop give up. */
  lemma {:induction false} GivesUpOnlyAfterThreeFailures(outcomes: seq<Option<string>>)
    requires |outcomes| >= MaxAttempts
    ensures FirstResponse(outcomes, MaxAttempts).None? <==>
            outcomes[0].None? && outcomes[1].None? && outcomes[2].None?
  {
    if outcomes[0].Some? {
      FirstResponseIsFirstSuccess(outcomes, MaxAttempts, 0);
    } else if outcomes[1].Some? {
      FirstResponseIsFirstSuccess(outcomes, MaxAttempts, 1);
    } else if outcomes[2].Some? {
      FirstResponseIsFirstSuccess(outcomes, MaxAttempts, 2);
    }
  }
}
