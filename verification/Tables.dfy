/** The rows the question lifecycle works on, and the queries it runs over them.

    Primary keys that the program draws at random (UUIDs) are row numbers here: fresh by construction.
    Tables that are only appended to are sequences in insertion order. */
module Tables {
  import opened Wrappers

  /** What `now()` yields together with the calendar facts derived from it. */
  datatype Instant = Instant(at: nat, monthStart: nat, hour: nat)

  predicate Later(a: Instant, b: Instant) {
    a.at < b.at && a.monthStart <= b.monthStart <= b.at && a.hour <= b.hour
  }

  /** Money in units small enough that tokens times price per token is whole. */
  type Money = int

  const MINUTE: nat := 60_000_000

  datatype SettingsRow = Settings(
    monthlyRequests: nat, monthlyBudget: Money, maxRequestCost: Money,
    inputPrice: Money, outputPrice: Money, tokenRate: nat, ipRate: nat)

  type Settings = c: SettingsRow | c.maxRequestCost >= 0 && c.inputPrice >= 0 && c.outputPrice >= 0
    witness SettingsRow.Settings(1, 0, 0, 0, 0, 1, 1)

  datatype Status = Pending | Completed | Failed | Rejected
  datatype Role = User | Assistant

  datatype Code =
    | QuotaExhausted | GenerationPending | IpRateLimited | ModelBudgetExhausted | RateLimited
    | ProviderUnavailable | ProviderTimeout | GenerationCancelled | WorkerLost | GenerationFailed
    | IdempotencyConflict | ConversationMissing

  datatype Conversation = Conversation(quotaLimit: int, quotaUsed: nat, lastMessageAt: Option<nat>)

  datatype Request = Request(
    httpId: nat, conversation: nat, key: string, question: string, status: Status,
    accepted: bool, charged: bool, model: Option<string>,
    startedAt: nat, endedAt: Option<nat>, error: Option<Code>, cost: Option<Money>)

  datatype Quota = Quota(limit: int, used: int, remaining: int)

  datatype AnswerOut = AnswerOut(
    messageId: nat, conversation: nat, answer: string, grounded: bool, citations: seq<string>,
    quota: Quota, httpId: nat)

  datatype Payload = Answered(answer: AnswerOut) | Refusal(code: Code)

  datatype Response = Response(payload: Payload, grounded: bool, status: Status, completedAt: nat)

  datatype Message = Message(
    conversation: nat, request: nat, role: Role, content: string, status: Status, createdAt: nat)

  datatype Bucket = Bucket(kind: string, ip: string, hour: nat)

  datatype Usage = Usage(promptTokens: Option<nat>, completionTokens: Option<nat>)

  datatype State = State(
    conversations: map<nat, Conversation>, requests: seq<Request>, responses: map<nat, Response>,
    messages: seq<Message>, buckets: map<Bucket, nat>, now: Instant)

  // ----- queries

  /** `SELECT sum(w) FROM requests`. */
  function Total(rs: seq<Request>, w: Request -> int): int {
    if rs == [] then 0 else Total(rs[..|rs| - 1], w) + w(rs[|rs| - 1])
  }

  predicate Billable(r: Request, since: nat) {
    r.startedAt >= since && (r.status == Pending || r.status == Completed)
  }

  function CostOf(r: Request): Money {
    if r.cost.Some? then r.cost.value else 0
  }

  function InMonth(since: nat): Request -> int {
    (r: Request) => if Billable(r, since) then 1 else 0
  }

  function CostInMonth(since: nat): Request -> int {
    (r: Request) => if Billable(r, since) then CostOf(r) else 0
  }

  function InWindow(c: nat, since: int): Request -> int {
    (r: Request) => if r.conversation == c && r.startedAt >= since then 1 else 0
  }

  function MonthlyCount(rs: seq<Request>, since: nat): int { Total(rs, InMonth(since)) }

  function MonthlyCost(rs: seq<Request>, since: nat): Money { Total(rs, CostInMonth(since)) }

  function TokenCount(rs: seq<Request>, c: nat, since: int): int { Total(rs, InWindow(c, since)) }

  /** `audit.by_idempotency`. */
  function ByIdempotency(rs: seq<Request>, c: nat, key: string): (r: Option<nat>)
    ensures r.Some? ==> r.value < |rs| && rs[r.value].conversation == c && rs[r.value].key == key
    ensures r.None? ==> forall i :: 0 <= i < |rs| ==> !(rs[i].conversation == c && rs[i].key == key)
  {
    if rs == [] then None
    else
      var last := |rs| - 1;
      if rs[last].conversation == c && rs[last].key == key then Some(last)
      else ByIdempotency(rs[..last], c, key)
  }

  /** `audit.pending`. */
  predicate HasPending(rs: seq<Request>, c: nat) {
    exists i :: 0 <= i < |rs| && rs[i].conversation == c && rs[i].status == Pending
  }

  /** The user's message of request `r`. */
  function UserMessage(ms: seq<Message>, r: nat): (m: Option<nat>)
    ensures m.Some? ==> m.value < |ms| && ms[m.value].request == r && ms[m.value].role == User
    ensures m.None? ==> forall i :: 0 <= i < |ms| ==> !(ms[i].request == r && ms[i].role == User)
  {
    if ms == [] then None
    else
      var last := |ms| - 1;
      if ms[last].request == r && ms[last].role == User then Some(last)
      else UserMessage(ms[..last], r)
  }

  function QuotaOf(c: Conversation): Quota {
    Quota(c.quotaLimit, c.quotaUsed, c.quotaLimit - c.quotaUsed)
  }

  /** A pending request the recovery job may take: started before the cutoff and locked by nobody. */
  predicate Stale(rs: seq<Request>, cutoff: int, held: set<nat>, i: nat) {
    i < |rs| && rs[i].status == Pending && rs[i].startedAt < cutoff && i !in held
  }

  /** The rows the recovery job picks. */
  function StaleRows(rs: seq<Request>, cutoff: int, held: set<nat>): (rows: seq<nat>)
    ensures forall k :: 0 <= k < |rows| ==> Stale(rs, cutoff, held, rows[k])
    ensures forall i: nat :: Stale(rs, cutoff, held, i) ==> i in rows
    ensures forall i, j :: 0 <= i < j < |rows| ==> rows[i] < rows[j]
  {
    if rs == [] then []
    else
      var last := |rs| - 1;
      var rows := StaleRows(rs[..last], cutoff, held);
      assert forall i: nat :: Stale(rs[..last], cutoff, held, i) <==> i < last && Stale(rs, cutoff, held, i);
      if Stale(rs, cutoff, held, last) then rows + [last] else rows
  }

  // ----- totals

  lemma {:induction false} TotalUpdate(rs: seq<Request>, i: nat, r: Request, w: Request -> int)
    requires i < |rs|
    ensures Total(rs[i := r], w) == Total(rs, w) - w(rs[i]) + w(r)
  {
    var last := |rs| - 1;
    if i < last {
      assert rs[i := r][..last] == rs[..last][i := r];
      TotalUpdate(rs[..last], i, r, w);
    } else {
      assert rs[i := r][..last] == rs[..last];
    }
  }

  lemma TotalAppend(rs: seq<Request>, r: Request, w: Request -> int)
    ensures Total(rs + [r], w) == Total(rs, w) + w(r)
  {
    assert (rs + [r])[..|rs|] == rs;
  }

  lemma {:induction false} TotalMonotone(rs: seq<Request>, v: Request -> int, w: Request -> int)
    requires forall i :: 0 <= i < |rs| ==> v(rs[i]) <= w(rs[i])
    ensures Total(rs, v) <= Total(rs, w)
  {
    if rs != [] {
      TotalMonotone(rs[..|rs| - 1], v, w);
    }
  }

  lemma {:induction false} TotalPrefix(rs: seq<Request>, n: nat, w: Request -> int)
    requires n <= |rs|
    requires forall i :: n <= i < |rs| ==> w(rs[i]) == 0
    ensures Total(rs, w) == Total(rs[..n], w)
  {
    if n < |rs| {
      TotalPrefix(rs[..|rs| - 1], n, w);
      assert rs[..|rs| - 1][..n] == rs[..n];
    } else {
      assert rs[..n] == rs;
    }
  }
}
