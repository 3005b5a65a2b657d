/** The optional value used throughout the model. */
module Options {
  datatype Option<+T> = None | Some(value: T)
}

/** Decimal text of natural numbers, as `usize::to_string` writes it and `str::parse` reads it. */
module Decimal {
  import opened Options

  function DigitChar(d: nat): char
    requires d < 10
  {
    "0123456789"[d]
  }

  predicate IsDigit(c: char) {
    '0' <= c <= '9'
  }

  function ToText(n: nat): (s: string)
    ensures |s| > 0
  {
    if n < 10 then [DigitChar(n)] else ToText(n / 10) + [DigitChar(n % 10)]
  }

  function ParseDigits(s: string): Option<nat> {
    if s == [] then Some(0)
    else
      var head := ParseDigits(s[..|s| - 1]);
      if head.None? || !IsDigit(s[|s| - 1]) then None
      else Some(10 * head.value + (s[|s| - 1] as int - '0' as int))
  }

  function Parse(s: string): Option<nat> {
    if s == [] then None else ParseDigits(s)
  }

  lemma {:induction false} ParseOfText(n: nat)
    ensures ParseDigits(ToText(n)) == Some(n)
    ensures Parse(ToText(n)) == Some(n)
    ensures forall c | c in ToText(n) :: IsDigit(c)
  {
    var s := ToText(n);
    if n < 10 {
      assert s[..0] == [];
    } else {
      ParseOfText(n / 10);
      var front := ToText(n / 10);
      assert s == front + [DigitChar(n % 10)];
      assert s[..|s| - 1] == front;
    }
  }
}

/** Chat messages, their metadata and the agent-level classification of a message. */
module Messages {
  /** The role strings the code compares with, and every other role. */
  datatype Role = System | User | Assistant | Tool | Function | OtherRole(name: string)

  /** The metadata keys the code reads or writes, and every key a host may add. */
  datatype Key =
    | AgentContentType | ToolStatus | ToolName | CcrId | CacheControl | Pinned
    | OriginalIndex | SessionFinalized | HostKey(name: string)

  type Metadata = map<Key, string>

  datatype Message = Message(role: Role, content: string, metadata: Metadata)

  predicate HasTag(m: Message, k: Key, v: string) {
    k in m.metadata && m.metadata[k] == v
  }

  predicate IsPinned(m: Message) {
    HasTag(m, Pinned, "true")
  }

  predicate IsToolRole(m: Message) {
    m.role.Tool? || m.role.Function?
  }

  datatype Kind = SystemInstruction | UserQuery | AssistantReply | ToolResultSuccess | ToolResultError | Unknown

  function ParseKind(s: string): Kind {
    if s == "system_instruction" then SystemInstruction
    else if s == "user_query" then UserQuery
    else if s == "assistant_reply" then AssistantReply
    else if s == "tool_result_success" then ToolResultSuccess
    else if s == "tool_result_error" then ToolResultError
    else Unknown
  }

  /** The parts of the SDK kept uninterpreted. Every result holds for all of them. */
  datatype Toolkit = Toolkit(
    looksLikeError: string -> bool,          // an ERROR_PATTERN in the first 512 bytes
    estimate: string -> nat,                 // HeuristicCounter::count
    key: string -> string                    // ccr::compute_key
  )

  function RoleKind(t: Toolkit, m: Message): Kind {
    match m.role
    case System => SystemInstruction
    case Tool => if HasTag(m, ToolStatus, "error") || t.looksLikeError(m.content) then ToolResultError else ToolResultSuccess
    case Function => if HasTag(m, ToolStatus, "error") || t.looksLikeError(m.content) then ToolResultError else ToolResultSuccess
    case User => UserQuery
    case Assistant => AssistantReply
    case OtherRole(_) => Unknown
  }

  function Classify(t: Toolkit, m: Message): Kind {
    if AgentContentType in m.metadata && ParseKind(m.metadata[AgentContentType]) != Unknown
    then ParseKind(m.metadata[AgentContentType])
    else RoleKind(t, m)
  }

  /** The sublist of messages that pass a test, in order. */
  function Where(p: Message -> bool, ms: seq<Message>): seq<Message> {
    if ms == [] then []
    else if p(ms[0]) then [ms[0]] + Where(p, ms[1..])
    else Where(p, ms[1..])
  }

  lemma {:induction false} WhereConcat(p: Message -> bool, a: seq<Message>, b: seq<Message>)
    ensures Where(p, a + b) == Where(p, a) + Where(p, b)
  {
    if a == [] {
      assert a + b == b;
    } else {
      var head, rest := if p(a[0]) then [a[0]] else [], Where(p, a[1..]);
      assert (a + b)[1..] == a[1..] + b;
      WhereConcat(p, a[1..], b);
      assert head + (rest + Where(p, b)) == (head + rest) + Where(p, b);
    }
  }

  lemma WhereSplit(p: Message -> bool, ms: seq<Message>, i: nat)
    requires i <= |ms|
    ensures Where(p, ms) == Where(p, ms[..i]) + Where(p, ms[i..])
  {
    hide Where;
    var a, b := ms[..i], ms[i..];
    WhereConcat(p, a, b);
    assert a + b == ms;
  }

  lemma {:induction false} WhereNone(p: Message -> bool, ms: seq<Message>)
    requires forall i | 0 <= i < |ms| :: !p(ms[i])
    ensures Where(p, ms) == []
  {
    if ms != [] {
      WhereNone(p, ms[1..]);
    }
  }

  /** A position-by-position rewrite that keeps the selected messages as they are, and selects no
      others, keeps the selected sublist. */
  lemma {:induction false} WherePointwise(p: Message -> bool, a: seq<Message>, b: seq<Message>)
    requires |a| == |b|
    requires forall i | 0 <= i < |a| :: p(a[i]) <==> p(b[i])
    requires forall i | 0 <= i < |a| && p(a[i]) :: b[i] == a[i]
    ensures Where(p, a) == Where(p, b)
  {
    if a != [] {
      WherePointwise(p, a[1..], b[1..]);
    }
  }

  /** Trading an unselected prefix for another keeps the selected sublist. */
  lemma WherePrefix(p: Message -> bool, head: seq<Message>, ms: seq<Message>, b: nat)
    requires b <= |ms|
    requires forall i | 0 <= i < |head| :: !p(head[i])
    requires forall i | 0 <= i < b :: !p(ms[i])
    ensures Where(p, head + ms[b..]) == Where(p, ms)
  {
    hide Where;
    WhereConcat(p, head, ms[b..]);
    WhereNone(p, head);
    WhereSplit(p, ms, b);
    WhereNone(p, ms[..b]);
  }

  /** Cutting out a slice without selected messages keeps the selected sublist. */
  lemma {:induction false} WhereCut(p: Message -> bool, ms: seq<Message>, s: nat, e: nat)
    requires s <= e <= |ms|
    requires forall i | s <= i < e :: !p(ms[i])
    ensures Where(p, ms[..s] + ms[e..]) == Where(p, ms)
  {
    hide Where;
    WhereSplit(p, ms, s);
    WhereSplit(p, ms[s..], e - s);
    assert ms[s..][..e - s] == ms[s..e] && ms[s..][e - s..] == ms[e..];
    WhereConcat(p, ms[..s], ms[e..]);
    WhereNone(p, ms[s..e]);
  }

  /** The two lists end with the same `k` messages. */
  predicate SameSuffix(a: seq<Message>, b: seq<Message>, k: nat) {
    k <= |a| && k <= |b| && a[|a| - k..] == b[|b| - k..]
  }

  lemma SameSuffixChain(a: seq<Message>, b: seq<Message>, c: seq<Message>, n: nat, k: nat)
    requires SameSuffix(a, b, n) && SameSuffix(b, c, k) && k <= n
    ensures SameSuffix(a, c, k)
  {
    assert a[|a| - k..] == a[|a| - n..][n - k..] == b[|b| - n..][n - k..] == b[|b| - k..];
  }
}
