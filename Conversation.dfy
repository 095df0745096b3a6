/** The message list sent to `/chat`: one system message kept at the front and refreshed
    before every user turn, followed by the user and assistant turns in the order they
    were added. */
module Conversation {
  import opened Responses

  datatype Role = System | User | Assistant

  /** `{ role, content }`. */
  datatype Message = Message(role: Role, content: string)

  /** The shape every conversation the page builds has: if non-empty, a system message at
      index 0 and no system message anywhere else. */
  predicate SingleLeadingSystem(c: seq<Message>) {
    (|c| > 0 ==> c[0].role == System) &&
    forall i | 0 < i < |c| :: c[i].role != System
  }

  /** Whether the refresh has to `unshift` a new system message rather than overwrite one. */
  predicate NeedsSystemInsert(c: seq<Message>) {
    |c| == 0 || c[0].role != System
  }

  /** The system-message upsert: `unshift` a new system message when the conversation is
      empty or does not start with one; otherwise overwrite index 0's content in place. */
  function RefreshSystem(c: seq<Message>, content: string): (r: seq<Message>)
    ensures |r| > 0 && r[0] == Message(System, content)
    ensures NeedsSystemInsert(c) ==> r[1..] == c
    ensures !NeedsSystemInsert(c) ==> |r| == |c| && r[1..] == c[1..]
    ensures SingleLeadingSystem(c) ==> SingleLeadingSystem(r)
  {
    if NeedsSystemInsert(c) then [Message(System, content)] + c
    else c[0 := Message(System, content)]
  }

  /** The conversation after one non-empty turn with trimmed text `text`: system refresh, the
      user message, and the assistant message only when the call produced a reply. */
  function AfterSend(c: seq<Message>, systemContent: string, text: string, outcome: ChatOutcome)
    : (r: seq<Message>)
    ensures var n := |c| + (if NeedsSystemInsert(c) then 2 else 1);
      |r| == n + (if outcome.Replied? then 1 else 0) &&
      r[n - 1] == Message(User, text) &&
      (outcome.Replied? ==> r[n] == Message(Assistant, outcome.text))
    ensures r[0] == Message(System, systemContent)
    ensures NeedsSystemInsert(c) ==> forall i | 0 <= i < |c| :: r[i + 1] == c[i]
    ensures !NeedsSystemInsert(c) ==> forall i | 0 < i < |c| :: r[i] == c[i]
    ensures SingleLeadingSystem(c) ==> SingleLeadingSystem(r)
  {
    var withUser := RefreshSystem(c, systemContent) + [Message(User, text)];
    if outcome.Replied? then withUser + [Message(Assistant, outcome.text)] else withUser
  }

  /** How many messages of `c` have the given role. */
  function CountRole(c: seq<Message>, role: Role): nat {
    if c == [] then 0 else (if c[0].role == role then 1 else 0) + CountRole(c[1..], role)
  }

  lemma {:induction false} CountRoleZero(c: seq<Message>, role: Role)
    ensures CountRole(c, role) == 0 <==> forall i | 0 <= i < |c| :: c[i].role != role
  {
    if c != [] {
      CountRoleZero(c[1..], role);
      assert forall i | 0 < i < |c| :: c[i] == c[1..][i - 1];
    }
  }

  /** For a non-empty conversation the shape is exactly "one system message, at index 0". */
  lemma ExactlyOneSystem(c: seq<Message>)
    requires |c| > 0
    ensures SingleLeadingSystem(c) <==> c[0].role == System && CountRole(c, System) == 1
  {
    CountRoleZero(c[1..], System);
    assert forall i | 0 < i < |c| :: c[i] == c[1..][i - 1];
  }

  /** One chat turn as the conversation sees it. */
  datatype Turn = Turn(systemContent: string, text: string, outcome: ChatOutcome)

  /** The conversation after a run of turns, the first one first. */
  function Replay(c: seq<Message>, turns: seq<Turn>): seq<Message>
    decreases |turns|
  {
    if turns == [] then c
    else Replay(AfterSend(c, turns[0].systemContent, turns[0].text, turns[0].outcome), turns[1..])
  }

  /** After any run of turns, starting from the empty conversation or any of the right shape,
      the shape is kept; after at least one turn there is exactly one system message and it
      is at index 0. */
  lemma {:induction false} ReplayKeepsSingleSystem(c: seq<Message>, turns: seq<Turn>)
    requires SingleLeadingSystem(c)
    ensures SingleLeadingSystem(Replay(c, turns))
    ensures |turns| > 0 ==>
              |Replay(c, turns)| > 0 && Replay(c, turns)[0].role == System &&
              CountRole(Replay(c, turns), System) == 1
    decreases |turns|
  {
    if turns != [] {
      var t := turns[0];
      var next := AfterSend(c, t.systemContent, t.text, t.outcome);
      ReplayKeepsSingleSystem(next, turns[1..]);
      var r := Replay(c, turns);
      assert r == Replay(next, turns[1..]);
      if |turns| == 1 {
        assert r == next;
      }
      ExactlyOneSystem(r);
    }
  }

  /** Once a system message leads, later turns only append: apart from the refreshed index 0,
      every message already there keeps its place and content. */
  lemma {:induction false} ReplayAppendsOnly(c: seq<Message>, turns: seq<Turn>)
    requires |c| > 0 && c[0].role == System
    ensures |Replay(c, turns)| >= |c|
    ensures Replay(c, turns)[0].role == System
    ensures Replay(c, turns)[1..|c|] == c[1..]
    decreases |turns|
  {
    if turns != [] {
      var t := turns[0];
      var next := AfterSend(c, t.systemContent, t.text, t.outcome);
      assert next[1..|c|] == c[1..];
      ReplayAppendsOnly(next, turns[1..]);
      assert Replay(c, turns) == Replay(next, turns[1..]);
      var r := Replay(c, turns);
      assert r[1..|c|] == r[1..|next|][..|c| - 1];
      assert next[1..|c|] == next[1..][..|c| - 1];
    }
  }
}
