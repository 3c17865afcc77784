/** Which part of a conversation's history a metered model call is given. */
module Prompt {
  import opened Options
  import opened Messages

  datatype Role = User | Assistant
  datatype ChatMessage = ChatMessage(role: Role, content: string)

  const HISTORY_LIMIT: nat := 20

  function Utf8Length(s: string): nat {
    if s == [] then 0 else
    var c := s[0] as int;
    (if c < 0x80 then 1 else if c < 0x800 then 2 else if c < 0x1_0000 then 3 else 4) + Utf8Length(s[1..])
  }

  function MessagesBound(messages: seq<ChatMessage>): nat {
    if messages == [] then 0 else Utf8Length(messages[0].content) + 128 + MessagesBound(messages[1..])
  }

  /** The bytes of the prompt, with a framing allowance. */
  function PromptBound(system: string, messages: seq<ChatMessage>): nat {
    Utf8Length(system) + MessagesBound(messages) + 512
  }

  // ----- what the bound counts -----

  /** One code point in UTF-8, as section 3 of RFC 3629 lays it out. */
  function EncodeChar(c: char): seq<int> {
    var n := c as int;
    var p, q := n / 64 / 64, n / 64;
    if n < 0x80 then [n]
    else if n < 0x800 then [0xC0 + q, 0x80 + n % 64]
    else if n < 0x1_0000 then [0xE0 + p, 0x80 + q % 64, 0x80 + n % 64]
    else [0xF0 + p / 64, 0x80 + p % 64, 0x80 + q % 64, 0x80 + n % 64]
  }

  function Encode(s: string): seq<int> {
    if s == [] then [] else EncodeChar(s[0]) + Encode(s[1..])
  }

  /** The code point a sequence of octets stands for. */
  function DecodeChar(b: seq<int>): int {
    if |b| == 1 then b[0]
    else if |b| == 2 then (b[0] - 0xC0) * 64 + (b[1] - 0x80)
    else if |b| == 3 then ((b[0] - 0xE0) * 64 + (b[1] - 0x80)) * 64 + (b[2] - 0x80)
    else if |b| == 4 then (((b[0] - 0xF0) * 64 + (b[1] - 0x80)) * 64 + (b[2] - 0x80)) * 64 + (b[3] - 0x80)
    else -1
  }

  lemma EncodingDecodes(c: char)
    ensures DecodeChar(EncodeChar(c)) == c as int
  {
    var n := c as int;
    var p, q := n / 64 / 64, n / 64;
    assert n == q * 64 + n % 64 && q == p * 64 + q % 64 && p == p / 64 * 64 + p % 64;
  }

  lemma {:induction false} LengthIsTheBytes(s: string)
    ensures Utf8Length(s) == |Encode(s)|
    decreases |s|
  {
    if s != [] { LengthIsTheBytes(s[1..]); }
  }

  /** All the texts of a prompt after one another. */
  function Contents(messages: seq<ChatMessage>): string {
    if messages == [] then [] else messages[0].content + Contents(messages[1..])
  }

  lemma {:induction false} EncodeJoins(a: string, b: string)
    ensures Encode(a + b) == Encode(a) + Encode(b)
    decreases |a|
  {
    if a == [] {
      assert a + b == b;
    } else {
      assert (a + b)[1..] == a[1..] + b;
      EncodeJoins(a[1..], b);
    }
  }

  lemma {:induction false} MessagesAreTheirBytes(messages: seq<ChatMessage>)
    ensures MessagesBound(messages) == |Encode(Contents(messages))| + 128 * |messages|
  {
    if messages != [] {
      LengthIsTheBytes(messages[0].content);
      EncodeJoins(messages[0].content, Contents(messages[1..]));
      MessagesAreTheirBytes(messages[1..]);
    }
  }

  /** The bound is the bytes of everything that is sent, 128 more for each message and 512 for the rest. */
  lemma BoundIsTheBytes(system: string, messages: seq<ChatMessage>)
    ensures PromptBound(system, messages) == |Encode(system + Contents(messages))| + 128 * |messages| + 512
  {
    LengthIsTheBytes(system);
    MessagesAreTheirBytes(messages);
    EncodeJoins(system, Contents(messages));
  }

  // ----- what the history is -----

  predicate Selected(row: Row, conversation: nat, merchant: nat) {
    row.conversation == conversation && row.merchant == merchant && row.text.Some?
    && (row.sender.Customer? || row.delivery.Sent?)
  }

  /** The rows a model may see, oldest first. */
  function Visible(rows: seq<Row>, conversation: nat, merchant: nat): seq<ChatMessage> {
    if rows == [] then []
    else
      var last := rows[|rows| - 1];
      Visible(rows[..|rows| - 1], conversation, merchant)
      + if Selected(last, conversation, merchant)
        then [ChatMessage(if last.sender.Customer? then User else Assistant, last.text.value)]
        else []
  }

  /** The newest visible rows up to the inbound one, oldest first. */
  function History(rows: seq<Row>, conversation: nat, merchant: nat, inbound: nat): seq<ChatMessage>
    requires inbound < |rows|
  {
    var visible := Visible(rows[..inbound + 1], conversation, merchant);
    if |visible| <= HISTORY_LIMIT then visible else visible[|visible| - HISTORY_LIMIT..]
  }

  /** Row `inbound` is the customer's message that is being answered. */
  predicate IsInbound(rows: seq<Row>, conversation: nat, merchant: nat, inbound: nat) {
    && inbound < |rows| && rows[inbound].conversation == conversation && rows[inbound].merchant == merchant
    && rows[inbound].sender.Customer? && rows[inbound].text.Some?
  }

  lemma HistoryEndsWithInbound(rows: seq<Row>, conversation: nat, merchant: nat, inbound: nat)
    requires IsInbound(rows, conversation, merchant, inbound)
    ensures var h := History(rows, conversation, merchant, inbound);
            && 1 <= |h| <= HISTORY_LIMIT
            && h[|h| - 1] == ChatMessage(User, rows[inbound].text.value)
  {
    assert rows[..inbound + 1][|rows[..inbound + 1]| - 1] == rows[inbound];
  }

  /** A message the model may be shown: of this conversation and merchant, with a text, and either the
      customer's or known to have been sent. */
  predicate MayBeShown(row: Row, conversation: nat, merchant: nat) {
    && row.conversation == conversation && row.merchant == merchant && row.text.Some?
    && (row.sender == Customer || row.delivery == Sent)
  }

  function Shown(row: Row): ChatMessage
    requires row.text.Some?
  {
    ChatMessage(if row.sender == Customer then User else Assistant, row.text.value)
  }

  /** `messages` are the rows at these positions, in order: all that may be shown, if `first` is 0, and
      otherwise all from number `first` on. */
  ghost predicate ShownAt(rows: seq<Row>, conversation: nat, merchant: nat, at: seq<nat>, first: nat,
                          messages: seq<ChatMessage>) {
    && |at| == |messages|
    && (forall k :: 0 <= k < |at| ==>
          && first <= at[k] < |rows| && MayBeShown(rows[at[k]], conversation, merchant)
          && messages[k] == Shown(rows[at[k]]))
    && (forall j, k :: 0 <= j < k < |at| ==> at[j] < at[k])
    && (forall i :: first <= i < |rows| && MayBeShown(rows[i], conversation, merchant) ==> i in at)
  }

  lemma {:induction false} VisibleIsShown(rows: seq<Row>, conversation: nat, merchant: nat) returns (at: seq<nat>)
    ensures ShownAt(rows, conversation, merchant, at, 0, Visible(rows, conversation, merchant))
  {
    hide ShownAt;
    if rows == [] {
      at := [];
      NothingShown(conversation, merchant);
    } else {
      var n := |rows| - 1;
      at := VisibleIsShown(rows[..n], conversation, merchant);
      ShowLast(rows[..n], conversation, merchant, at, Visible(rows[..n], conversation, merchant), rows[n]);
      assert rows == rows[..n] + [rows[n]];
      assert Visible(rows[..n], conversation, merchant) + [] == Visible(rows[..n], conversation, merchant);
      if MayBeShown(rows[n], conversation, merchant) { at := at + [n]; }
    }
  }

  lemma NothingShown(conversation: nat, merchant: nat)
    ensures ShownAt([], conversation, merchant, [], 0, [])
  {
  }

  lemma ShowLast(init: seq<Row>, conversation: nat, merchant: nat, at: seq<nat>, messages: seq<ChatMessage>, last: Row)
    requires ShownAt(init, conversation, merchant, at, 0, messages)
    ensures if MayBeShown(last, conversation, merchant)
            then ShownAt(init + [last], conversation, merchant, at + [|init|], 0, messages + [Shown(last)])
            else ShownAt(init + [last], conversation, merchant, at, 0, messages)
  {
    hide MayBeShown;
    var rows, more := init + [last], at + [|init|];
    assert forall i :: 0 <= i < |init| ==> rows[i] == init[i];
    assert more[|at|] == |init|;
    assert forall i :: i in at ==> i in more;
  }

  /** The history is what may be shown of the rows up to the inbound one, in order: all of it, or the
      newest twenty. Nothing of another conversation or merchant, nothing that was not sent. */
  lemma HistoryIsTheNewest(rows: seq<Row>, conversation: nat, merchant: nat, inbound: nat)
    returns (at: seq<nat>, first: nat)
    requires inbound < |rows|
    ensures var h := History(rows, conversation, merchant, inbound);
            && ShownAt(rows[..inbound + 1], conversation, merchant, at, first, h)
            && |h| <= HISTORY_LIMIT && (first == 0 || |h| == HISTORY_LIMIT)
  {
    hide Visible, ShownAt;
    var upTo := rows[..inbound + 1];
    var all := VisibleIsShown(upTo, conversation, merchant);
    var visible := Visible(upTo, conversation, merchant);
    SameLength(upTo, conversation, merchant, all, visible);
    if |visible| <= HISTORY_LIMIT {
      at, first := all, 0;
    } else {
      var n := |visible| - HISTORY_LIMIT;
      at, first := all[n..], all[n];
      ShownFrom(upTo, conversation, merchant, all, visible, n);
    }
  }

  lemma SameLength(rows: seq<Row>, conversation: nat, merchant: nat, at: seq<nat>, messages: seq<ChatMessage>)
    requires ShownAt(rows, conversation, merchant, at, 0, messages)
    ensures |at| == |messages|
  {
  }

  lemma ShownFrom(rows: seq<Row>, conversation: nat, merchant: nat, at: seq<nat>, messages: seq<ChatMessage>, n: nat)
    requires ShownAt(rows, conversation, merchant, at, 0, messages) && n < |at|
    ensures ShownAt(rows, conversation, merchant, at[n..], at[n], messages[n..])
  {
    hide MayBeShown;
    forall i | at[n] <= i < |rows| && MayBeShown(rows[i], conversation, merchant) ensures i in at[n..] {
      var k :| 0 <= k < |at| && at[k] == i;
      assert at[n..][k - n] == i;
    }
  }

  /** A conversation of at least two turns that opens with the customer and fits the model. */
  predicate Fits(system: string, messages: seq<ChatMessage>, maxInput: nat) {
    2 <= |messages| && messages[0].role.User? && PromptBound(system, messages) <= maxInput
  }

  /** The longest suffix that fits begins at `k`; when none does, only the last message is left. */
  ghost predicate KeepsFrom(system: string, history: seq<ChatMessage>, maxInput: nat, k: nat) {
    && k <= |history|
    && (Fits(system, history[k..], maxInput) || (history == [] && k == 0) || k == |history| - 1)
    && forall j :: 0 <= j < k ==> !Fits(system, history[j..], maxInput)
  }

  /** The longest suffix of the history that fits, or its last message. */
  ghost predicate IsLongestFit(system: string, history: seq<ChatMessage>, maxInput: nat, messages: seq<ChatMessage>) {
    && |messages| <= |history| && messages == history[|history| - |messages|..]
    && KeepsFrom(system, history, maxInput, |history| - |messages|)
  }

  method TrimHistory(system: string, history: seq<ChatMessage>, maxInput: nat) returns (messages: seq<ChatMessage>)
    ensures IsLongestFit(system, history, maxInput, messages)
  {
    messages := history;
    ghost var k := 0;
    while 1 < |messages| && (messages[0].role != User || PromptBound(system, messages) > maxInput)
      invariant k <= |history| && messages == history[k..] && (history != [] ==> messages != [])
      invariant forall j :: 0 <= j < k ==> !Fits(system, history[j..], maxInput)
      decreases |messages|
    {
      messages := messages[1..];
      k := k + 1;
    }
  }

  /** What a provider may be sent: a non-empty prompt that opens with the customer, is within
      the model's input limit and ends with the message being answered. */
  ghost predicate Admissible(system: string, messages: seq<ChatMessage>, maxInput: nat, inboundText: string) {
    && messages != [] && messages[0].role.User?
    && PromptBound(system, messages) <= maxInput
    && messages[|messages| - 1] == ChatMessage(User, inboundText)
  }

  /** Some suffix of the history fits, or the inbound message alone does. */
  ghost predicate PromptFits(system: string, history: seq<ChatMessage>, maxInput: nat, inboundText: string) {
    || (exists j :: 0 <= j < |history| && Fits(system, history[j..], maxInput))
    || PromptBound(system, [ChatMessage(User, inboundText)]) <= maxInput
  }

  /** The admission control in front of a paid call. */
  method AdmitPrompt(system: string, rows: seq<Row>, conversation: nat, merchant: nat, inbound: nat, maxInput: nat)
    returns (messages: Option<seq<ChatMessage>>)
    requires IsInbound(rows, conversation, merchant, inbound)
    ensures var h := History(rows, conversation, merchant, inbound);
            && (messages.Some? <==> PromptFits(system, h, maxInput, rows[inbound].text.value))
            && (messages.Some? ==>
                  var ms := messages.value;
                  && IsLongestFit(system, h, maxInput, ms)
                  && Admissible(system, ms, maxInput, rows[inbound].text.value))
  {
    hide Utf8Length, MessagesBound, Visible;
    var history := History(rows, conversation, merchant, inbound);
    HistoryEndsWithInbound(rows, conversation, merchant, inbound);
    var kept := TrimHistory(system, history, maxInput);
    assert kept[|kept| - 1] == history[|history| - 1];
    if kept == [] || PromptBound(system, kept) > maxInput {
      assert kept == [ChatMessage(User, rows[inbound].text.value)];
      forall j | 0 <= j < |history| ensures !Fits(system, history[j..], maxInput) {
        if j == |history| - 1 { assert |history[j..]| == 1; }
      }
      return None;
    }
    if |kept| == 1 { assert kept == [ChatMessage(User, rows[inbound].text.value)]; }
    return Some(kept);
  }
}
