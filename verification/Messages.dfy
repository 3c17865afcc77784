/** What passes through the inbox: inbound envelopes, drafts and message rows. */
module Messages {
  import opened Options

  datatype Envelope = Envelope(update: string, text: Option<string>, attachments: nat)

  /** What an agent reads first; never blank. */
  type Reason = s: string | 0 < |s| witness "handoff"

  function Join(reason: Reason, rest: string): Reason { reason + rest }

  /** What a brain produced. A reply carries something; an escalation carries its reason. */
  datatype DraftValue = Reply(text: Option<string>, attachments: nat) | Escalate(reason: Reason)

  type Draft = d: DraftValue | d.Reply? ==> d.text.Some? || 0 < d.attachments witness Escalate("handoff")

  datatype Sender = Customer | Bot | Agent
  datatype Delivery = Sent | Pending | Failed

  /** A message row; its id is its position. */
  datatype Row = Row(
    conversation: nat, merchant: nat, sender: Sender, text: Option<string>, delivery: Delivery,
    providerId: Option<string>, error: Option<string>, createdAt: int)
}
