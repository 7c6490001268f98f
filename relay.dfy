/**
 * The relay loop of main.go: startup validation of the three settings, the
 * per-update decision, the main snapshot's `addToDynalist`, and the loop that
 * drains the update stream. Telegram's API is outside the model: updates are
 * a given sequence and the replies the bot sends are entries of an effect log.
 */
module Relay {
  import opened Wrappers
  import opened Decimal
  import Dynalist

  // ---------------------------------------------------------------------
  // Startup

  datatype Config = Config(botToken: string, dynalistToken: string, userId: int64)

  datatype StartupError =
    | MissingSettings             // one of BOT_TOKEN, DYNALIST_TOKEN, TG_USER_ID is empty
    | InvalidUserId(err: NumError) // TG_USER_ID is not a base-10 int64

  /** main.go:45-53: both fatal checks, in order, before the bot is created. */
  function LoadConfig(botToken: string, dynalistToken: string, userIdText: string): (r: Result<Config, StartupError>)
    ensures r.Success? <==>
      botToken != "" && dynalistToken != "" && userIdText != "" && ParseInt64(userIdText).Success?
    ensures botToken == "" || dynalistToken == "" || userIdText == "" ==> r == Failure(MissingSettings)
    ensures r.Success? ==>
      r.value.botToken == botToken && r.value.dynalistToken == dynalistToken &&
      Success(r.value.userId) == ParseInt64(userIdText)
  {
    if botToken == "" || dynalistToken == "" || userIdText == "" then Failure(MissingSettings)
    else
      match ParseInt64(userIdText)
      case Failure(e) => Failure(InvalidUserId(e))
      case Success(id) => Success(Config(botToken, dynalistToken, id))
  }

  /** Any int64 written in decimal is accepted as the user ID, and read back exactly. */
  lemma LoadConfigAcceptsDecimalId(botToken: string, dynalistToken: string, id: int64)
    requires botToken != "" && dynalistToken != ""
    ensures LoadConfig(botToken, dynalistToken, FormatInt(id as int)) == Success(Config(botToken, dynalistToken, id))
  {
    ParseFormatRoundTrip(id);
  }

  // ---------------------------------------------------------------------
  // Updates and what the bot does with them

  /** The parts of a Telegram message the loop reads; each media field is "non-nil". */
  datatype Message = Message(
    senderId: int, text: string,
    photo: bool, video: bool, audio: bool, document: bool, sticker: bool, animation: bool,
    chatId: int, messageId: int)

  datatype Update = Update(message: Option<Message>)

  /** An update together with what the Dynalist exchange yields if the loop posts for it. */
  datatype Delivery = Delivery(update: Update, exchange: Dynalist.Exchange)

  datatype Reply = Reply(chatId: int, text: string, replyTo: int)

  /** One observable effect of the loop, in the order it happens. */
  datatype Effect = Posted(request: Dynalist.Request) | Replied(reply: Reply)

  const MediaNotice: string := "Only text messages are supported. Media cannot be uploaded to Dynalist."
  const AddedNotice: string := "Added to Dynalist inbox"
  const ErrorPrefix: string := "Error adding to Dynalist: "

  predicate HasMedia(m: Message) {
    m.photo || m.video || m.audio || m.document || m.sticker || m.animation
  }

  /** The branch main.go:71-117 takes for one update. */
  datatype Decision =
    | NoMessage
    | Unauthorized(senderId: int)
    | MediaRejected(m: Message)
    | EmptyText
    | Forward(m: Message)

  /** The checks of the loop body, in the order the source makes them. */
  function Classify(userId: int64, u: Update): (d: Decision)
    ensures d.NoMessage? <==> u.message.None?
    ensures d.Unauthorized? <==> u.message.Some? && u.message.value.senderId != userId as int
    ensures d.MediaRejected? <==>
      u.message.Some? && u.message.value.senderId == userId as int && HasMedia(u.message.value)
    ensures d.EmptyText? <==>
      u.message.Some? && u.message.value.senderId == userId as int && !HasMedia(u.message.value)
      && u.message.value.text == ""
    ensures d.MediaRejected? ==> d.m == u.message.value
    ensures d.Forward? ==> u.message == Some(d.m) && d.m.text != ""
  {
    match u.message
    case None => NoMessage
    case Some(m) =>
      if m.senderId != userId as int then Unauthorized(m.senderId)
      else if HasMedia(m) then MediaRejected(m)
      else if m.text == "" then EmptyText
      else Forward(m)
  }

  /** main.go's `addToDynalist`: the same call as dynalist.go's with no note. */
  function AddToDynalist(token: string, content: string, exchange: Dynalist.Exchange): (s: Dynalist.Submission)
    ensures s.request == Dynalist.NewRequest(token, content, "")
    ensures s.error.None? <==> exchange.Decoded? && exchange.response.code == "Ok"
    ensures exchange.SendFailed? ==> s.error == Some(Dynalist.SendPrefix + exchange.reason)
    ensures exchange.DecodeFailed? ==> s.error == Some(Dynalist.DecodePrefix + exchange.reason)
    ensures exchange.Decoded? ==> s.error == Dynalist.CheckResponse(exchange.response)
  {
    var request := Dynalist.Request(token, 0, content, "", false, false);
    match exchange
    case SendFailed(e) => Dynalist.Submission(request, Some(Dynalist.SendPrefix + e))
    case DecodeFailed(e) => Dynalist.Submission(request, Some(Dynalist.DecodePrefix + e))
    case Decoded(resp) => Dynalist.Submission(request, Dynalist.CheckResponse(resp))
  }

  /** The two snapshots of the call agree whenever no note is given. */
  lemma AddToDynalistSnapshotsAgree(token: string, content: string, exchange: Dynalist.Exchange)
    ensures AddToDynalist(token, content, exchange) == Dynalist.AddToDynalist(token, content, "", exchange)
  {
  }

  /** The text of the reply after a submission. */
  function OutcomeText(error: Option<string>): string {
    match error
    case None => AddedNotice
    case Some(e) => ErrorPrefix + e
  }

  /** The effects of one update. */
  function Step(cfg: Config, d: Delivery): seq<Effect> {
    match Classify(cfg.userId, d.update)
    case NoMessage => []
    case Unauthorized(_) => []
    case MediaRejected(m) => [Replied(Reply(m.chatId, MediaNotice, m.messageId))]
    case EmptyText => []
    case Forward(m) =>
      var s := AddToDynalist(cfg.dynalistToken, m.text, d.exchange);
      [Posted(s.request), Replied(Reply(m.chatId, OutcomeText(s.error), m.messageId))]
  }

  /** The effects of a stream of updates, handled one after the other in arrival order. */
  function Effects(cfg: Config, ds: seq<Delivery>): seq<Effect> {
    if ds == [] then [] else Effects(cfg, ds[..|ds| - 1]) + Step(cfg, ds[|ds| - 1])
  }

  /**
   * The `for update := range updates` loop: every `continue` of the source
   * ends an iteration early; replies and posts are appended to the log as
   * the source sends them.
   */
  method Run(cfg: Config, deliveries: seq<Delivery>) returns (log: seq<Effect>)
    ensures log == Effects(cfg, deliveries)
  {
    log := [];
    for i := 0 to |deliveries|
      invariant log == Effects(cfg, deliveries[..i])
    {
      assert deliveries[..i + 1][..i] == deliveries[..i];
      var d := deliveries[i];
      if d.update.message.None? {
        continue;
      }
      var m := d.update.message.value;
      if m.senderId != cfg.userId as int {
        continue;
      }
      if m.photo || m.video || m.audio || m.document || m.sticker || m.animation {
        log := log + [Replied(Reply(m.chatId, MediaNotice, m.messageId))];
        continue;
      }
      var text := m.text;
      if text == "" {
        continue;
      }
      var s := AddToDynalist(cfg.dynalistToken, text, d.exchange);
      log := log + [Posted(s.request)];
      if s.error.Some? {
        log := log + [Replied(Reply(m.chatId, ErrorPrefix + s.error.value, m.messageId))];
        continue;
      }
      log := log + [Replied(Reply(m.chatId, AddedNotice, m.messageId))];
    }
    assert deliveries[..|deliveries|] == deliveries;
  }

  // ---------------------------------------------------------------------
  // What one update can cause

  /** An update without a message, or from anyone but the configured user, has no effect at all. */
  lemma IgnoredUpdatesHaveNoEffect(cfg: Config, d: Delivery)
    requires d.update.message.None? || d.update.message.value.senderId != cfg.userId as int
    ensures Step(cfg, d) == []
  {
  }

  /** Media from the configured user gets only the fixed notice, whatever its text; nothing is posted. */
  lemma MediaGetsOnlyNotice(cfg: Config, d: Delivery)
    requires d.update.message.Some? && d.update.message.value.senderId == cfg.userId as int
    requires HasMedia(d.update.message.value)
    ensures var m := d.update.message.value;
      Step(cfg, d) == [Replied(Reply(m.chatId, MediaNotice, m.messageId))]
  {
  }

  /** An authorized media-free message with empty text is skipped silently. */
  lemma EmptyTextSkipped(cfg: Config, d: Delivery)
    requires d.update.message.Some? && d.update.message.value.senderId == cfg.userId as int
    requires !HasMedia(d.update.message.value) && d.update.message.value.text == ""
    ensures Step(cfg, d) == []
  {
  }

  /**
   * An authorized media-free message with text is posted once, with its text
   * and the configured token and no note, and answered once: with the fixed
   * confirmation exactly when Dynalist answered "Ok", otherwise with the
   * error text of the single attempt.
   */
  lemma TextIsForwardedOnce(cfg: Config, d: Delivery)
    requires d.update.message.Some? && d.update.message.value.senderId == cfg.userId as int
    requires !HasMedia(d.update.message.value) && d.update.message.value.text != ""
    ensures var m := d.update.message.value;
      var e := Step(cfg, d);
      |e| == 2 && e[0] == Posted(Dynalist.NewRequest(cfg.dynalistToken, m.text, "")) &&
      e[1].Replied? && e[1].reply.chatId == m.chatId && e[1].reply.replyTo == m.messageId &&
      (e[1].reply.text == AddedNotice <==> d.exchange.Decoded? && d.exchange.response.code == "Ok") &&
      (e[1].reply.text != AddedNotice ==>
        e[1].reply.text == ErrorPrefix + Dynalist.AddToDynalist(cfg.dynalistToken, m.text, "", d.exchange).error.value)
  {
  }

  /** The effects of one update: at most one post and one reply, the reply last and addressed to the message. */
  predicate WellFormedStep(d: Delivery, e: seq<Effect>) {
    |e| <= 2 &&
    (|e| == 2 ==> e[0].Posted?) &&
    (e != [] ==>
      e[|e| - 1].Replied? && d.update.message.Some? &&
      e[|e| - 1].reply.chatId == d.update.message.value.chatId &&
      e[|e| - 1].reply.replyTo == d.update.message.value.messageId)
  }

  lemma StepWellFormed(cfg: Config, d: Delivery)
    ensures WellFormedStep(d, Step(cfg, d))
    ensures Step(cfg, d) != [] ==> d.update.message.value.senderId == cfg.userId as int
  {
  }

  // ---------------------------------------------------------------------
  // The whole stream

  function Replies(log: seq<Effect>): seq<Reply> {
    if log == [] then []
    else Replies(log[..|log| - 1]) + (if log[|log| - 1].Replied? then [log[|log| - 1].reply] else [])
  }

  lemma {:induction false} RepliesAppend(a: seq<Effect>, b: seq<Effect>)
    ensures Replies(a + b) == Replies(a) + Replies(b)
    decreases |b|
  {
    if b == [] {
      assert a + b == a;
    } else {
      assert (a + b)[..|a + b| - 1] == a + b[..|b| - 1];
      RepliesAppend(a, b[..|b| - 1]);
    }
  }

  /** The messages the loop answers, in arrival order: the configured user's, except empty media-free ones. */
  function Answered(cfg: Config, ds: seq<Delivery>): seq<Message> {
    if ds == [] then []
    else
      var d := ds[|ds| - 1];
      Answered(cfg, ds[..|ds| - 1]) +
        match Classify(cfg.userId, d.update)
        case MediaRejected(m) => [m]
        case Forward(m) => [m]
        case _ => []
  }

  /**
   * Replies come one per answered message and in arrival order, each to that
   * message's chat and as a reply to it; so no update gets two replies and a
   * stranger gets none.
   */
  lemma {:induction false} RepliesFollowArrivalOrder(cfg: Config, ds: seq<Delivery>)
    ensures var rs := Replies(Effects(cfg, ds));
      var ms := Answered(cfg, ds);
      |rs| == |ms| && |rs| <= |ds| &&
      forall i :: 0 <= i < |rs| ==>
        rs[i].chatId == ms[i].chatId && rs[i].replyTo == ms[i].messageId &&
        ms[i].senderId == cfg.userId as int
  {
    if ds != [] {
      var init := ds[..|ds| - 1];
      var d := ds[|ds| - 1];
      RepliesFollowArrivalOrder(cfg, init);
      RepliesAppend(Effects(cfg, init), Step(cfg, d));
      var step := Step(cfg, d);
      match Classify(cfg.userId, d.update)
      case NoMessage =>
      case Unauthorized(_) =>
      case EmptyText =>
      case MediaRejected(m) =>
        assert Replies(step) == Replies([]) + [step[0].reply];
      case Forward(m) =>
        assert step[..1][..0] == [];
        assert Replies(step) == Replies(step[..1]) + [step[1].reply];
    }
  }

  function PostCount(log: seq<Effect>): nat {
    if log == [] then 0 else PostCount(log[..|log| - 1]) + (if log[|log| - 1].Posted? then 1 else 0)
  }

  lemma {:induction false} PostCountAppend(a: seq<Effect>, b: seq<Effect>)
    ensures PostCount(a + b) == PostCount(a) + PostCount(b)
    decreases |b|
  {
    if b == [] {
      assert a + b == a;
    } else {
      assert (a + b)[..|a + b| - 1] == a + b[..|b| - 1];
      PostCountAppend(a, b[..|b| - 1]);
    }
  }

  /** How many messages the loop forwards to Dynalist. */
  function ForwardCount(cfg: Config, ds: seq<Delivery>): nat {
    if ds == [] then 0
    else ForwardCount(cfg, ds[..|ds| - 1]) + (if Classify(cfg.userId, ds[|ds| - 1].update).Forward? then 1 else 0)
  }

  /** Every forwarded message is posted exactly once, whatever Dynalist answers: there is no retry. */
  lemma {:induction false} OnePostPerForwardedMessage(cfg: Config, ds: seq<Delivery>)
    ensures PostCount(Effects(cfg, ds)) == ForwardCount(cfg, ds)
  {
    if ds != [] {
      var init := ds[..|ds| - 1];
      var d := ds[|ds| - 1];
      OnePostPerForwardedMessage(cfg, init);
      PostCountAppend(Effects(cfg, init), Step(cfg, d));
      var step := Step(cfg, d);
      if Classify(cfg.userId, d.update).Forward? {
        assert step[..1][..0] == [];
        assert PostCount(step) == PostCount(step[..1]) + 0;
      } else if Classify(cfg.userId, d.update).MediaRejected? {
        assert PostCount(step) == PostCount([]) + 0;
      }
    }
  }
}
