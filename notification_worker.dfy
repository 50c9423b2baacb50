/**
 * The notification queue's job handler (workers/notification-worker.ts):
 * which channels an approval request goes out on, the dispatch on a
 * channel's name, and the result the job reports.  Delivery itself is an
 * outcome supplied from outside.
 */
module NotificationWorker {
  import opened Types

  /** The four channels the worker knows, in the order they are tried. */
  const ChannelNames: seq<string> := ["email", "slack", "sms", "whatsapp"]

  /** A channel's position in `ChannelNames` (4 for an unknown name). */
  function Rank(c: string): nat {
    if c == "email" then 0 else if c == "slack" then 1 else if c == "sms" then 2 else if c == "whatsapp" then 3 else 4
  }

  /** The config flag that switches channel `c` on. */
  predicate Flag(cfg: StepConfig, c: string) {
    (c == "email" && cfg.email) || (c == "slack" && cfg.slack) || (c == "sms" && cfg.sms) || (c == "whatsapp" && cfg.whatsapp)
  }

  predicate NoFlags(cfg: StepConfig) {
    !cfg.email && !cfg.slack && !cfg.sms && !cfg.whatsapp
  }

  /**
   * `getChannelsFromStep`: the flagged channels in the fixed order, or
   * email alone when no flag is set.
   */
  function GetChannelsFromStep(cfg: StepConfig): (r: seq<string>)
    ensures |r| > 0
    ensures NoFlags(cfg) ==> r == ["email"]
    ensures !NoFlags(cfg) ==> forall c :: c in r <==> Flag(cfg, c)
    ensures forall c | c in r :: c in ChannelNames
    ensures forall i, j | 0 <= i < j < |r| :: Rank(r[i]) < Rank(r[j])
  {
    var picked := (if cfg.email then ["email"] else [])
                + (if cfg.slack then ["slack"] else [])
                + (if cfg.sms then ["sms"] else [])
                + (if cfg.whatsapp then ["whatsapp"] else []);
    if |picked| > 0 then picked else ["email"]
  }

  /** Increasing ranks mean no channel is listed twice. */
  lemma ChannelsAreDistinct(cfg: StepConfig)
    ensures var r := GetChannelsFromStep(cfg); forall i, j | 0 <= i < j < |r| :: r[i] != r[j]
  {
    var r := GetChannelsFromStep(cfg);
    forall i, j | 0 <= i < j < |r| ensures r[i] != r[j] {
      assert Rank(r[i]) < Rank(r[j]);
    }
  }

  function UnknownChannel(c: string): string {
    "Unknown channel: " + c
  }

  /**
   * `sendToChannel`: a known channel passes on its delivery's outcome,
   * any other name fails.
   */
  function SendToChannel(c: string, delivery: Outcome): (r: Outcome)
    ensures c in ChannelNames ==> r == delivery
    ensures c !in ChannelNames ==> r == Fail(UnknownChannel(c))
  {
    match c
    case "email" => delivery
    case "slack" => delivery
    case "sms" => delivery
    case "whatsapp" => delivery
    case _ => Fail(UnknownChannel(c))
  }

  /** `sendToMultipleChannels`: one settled outcome per channel, in order. */
  function SendToAll(channels: seq<string>, deliver: string -> Outcome): (r: seq<Outcome>)
    ensures |r| == |channels|
    ensures forall i | 0 <= i < |channels| :: r[i] == SendToChannel(channels[i], deliver(channels[i]))
  {
    if |channels| == 0 then []
    else [SendToChannel(channels[0], deliver(channels[0]))] + SendToAll(channels[1..], deliver)
  }

  datatype NotificationResult = NotificationResult(success: bool, approvalId: nat, channels: seq<string>)

  /**
   * The job handler: send on every channel, then report success with the
   * channel list, whatever the individual deliveries returned.
   */
  function NotificationJob(approvalId: nat, cfg: StepConfig, deliver: string -> Outcome): (r: (NotificationResult, seq<Outcome>))
    ensures r.0 == NotificationResult(true, approvalId, GetChannelsFromStep(cfg))
    ensures |r.1| == |r.0.channels|
    ensures forall i | 0 <= i < |r.1| :: r.1[i] == deliver(r.0.channels[i])
  {
    var channels := GetChannelsFromStep(cfg);
    (NotificationResult(true, approvalId, channels), SendToAll(channels, deliver))
  }
}
