/** The message handler of bot.js: which of its four branches a message takes,
    the group report `sendGroupStats` builds, and the handler as a whole over
    the statistics store. Replies are returned values instead of sent messages. */
module Bot {
  import opened Values
  import opened StatsRecord
  import opened Ranking
  import opened Store

  datatype Chat = Chat(id: int, title: Option<string>)

  /** An incoming message; chat and sender may be missing. */
  datatype Message = Message(chat: Option<Chat>, from: Option<Sender>, text: Option<string>)

  /** The only command the bot knows. */
  const StatsCommand: string := "/stats"

  /** The reply to a message outside a group. */
  const Hint: string := "Use /stats in a group for seeing me doing stuff!"

  /** What a message asks of the bot. */
  datatype Action =
    | Ignore
    | HintReply(chatId: int)
    | ShowStats(chat: Chat)
    | CountActivity(group: int, from: Sender, text: Option<string>)

  /** One line of the report: the fields it prints for one user. */
  datatype Row = Row(username: Option<string>, message_count: nat, average_message_length: Option<nat>)

  /** The report of a group: its title, one row per user and the message total. */
  datatype Report = Report(title: Option<string>, rows: seq<Row>, total: nat)

  /** What the bot sends back for a message. */
  datatype Reply = Silent | SendText(chatId: int, text: string) | SendReport(chatId: int, report: Report)

  /** The branches of `bot.on('message')`: a message without chat or sender is
      ignored; a chat with a positive id is not a group and gets the hint; a text
      that is exactly the command asks for the report; anything else, with or
      without text, is counted. */
  function Dispatch(msg: Option<Message>): (a: Action)
    ensures a.Ignore? <==> msg.None? || msg.value.chat.None? || msg.value.from.None?
    ensures a.HintReply? <==> !a.Ignore? && msg.value.chat.value.id > 0
    ensures a.HintReply? ==> a.chatId == msg.value.chat.value.id
    ensures a.ShowStats? <==>
      !a.Ignore? && msg.value.chat.value.id <= 0 && msg.value.text == Some(StatsCommand)
    ensures a.ShowStats? ==> a.chat == msg.value.chat.value
    ensures a.CountActivity? <==>
      !a.Ignore? && msg.value.chat.value.id <= 0 && msg.value.text != Some(StatsCommand)
    ensures a.CountActivity? ==>
      a.group == msg.value.chat.value.id && a.from == msg.value.from.value && a.text == msg.value.text
  {
    match msg
    case None => Ignore
    case Some(Message(chat, from, text)) =>
      if chat.None? || from.None? then Ignore
      else if chat.value.id > 0 then HintReply(chat.value.id)
      else if Truthy(text) && text.value == StatsCommand then ShowStats(chat.value)
      else CountActivity(chat.value.id, from.value, text)
  }

  function RowOf(r: Record): Row {
    Row(r.username, r.message_count, r.average_message_length)
  }

  /** report lists the given documents in order, under the title, with their total. */
  ghost predicate Renders(title: Option<string>, stats: seq<Record>, report: Report) {
    && report.title == title
    && |report.rows| == |stats|
    && (forall i :: 0 <= i < |stats| ==> report.rows[i] == RowOf(stats[i]))
    && report.total == SumCounts(stats)
  }

  /** report is a report of the chat's group over table m. */
  ghost predicate IsReportFor(m: Table, chat: Chat, report: Report) {
    exists stats :: IsGroupQuery(m, chat.id, stats) && Renders(chat.title, stats, report)
  }

  /** The body of the query callback: the `reduce` for the total, then the
      `forEach` that adds one line per document. */
  method Render(title: Option<string>, stats: seq<Record>) returns (report: Report)
    ensures Renders(title, stats, report)
  {
    var total := 0;
    var i := 0;
    while i < |stats|
      invariant 0 <= i <= |stats|
      invariant total == SumCounts(stats[..i])
    {
      SumCountsAppend(stats[..i], stats[i]);
      assert stats[..i + 1] == stats[..i] + [stats[i]];
      total := total + stats[i].message_count;
      i := i + 1;
    }
    assert stats[..i] == stats;
    var rows := [];
    i := 0;
    while i < |stats|
      invariant 0 <= i <= |stats|
      invariant |rows| == i
      invariant forall k :: 0 <= k < i ==> rows[k] == RowOf(stats[k])
    {
      rows := rows + [RowOf(stats[i])];
      i := i + 1;
    }
    report := Report(title, rows, total);
  }

  /** `sendGroupStats`: query the group's documents in report order and render
      them. The report has one row per document of the group and its total is
      the number of messages counted in the group (0 for a group with none). */
  method SendGroupStats(store: UserStatsStore, chat: Chat) returns (report: Report)
    ensures IsReportFor(store.records, chat, report)
    ensures |report.rows| == |GroupRecords(store.records, chat.id)|
    ensures report.total == GroupTotal(store.records, chat.id)
  {
    var stats := store.FindByGroup(chat.id);
    report := Render(chat.title, stats);
    QueryListsGroup(store.records, chat.id, stats);
  }

  /** `bot.on('message')`: the reply, and what happens to the store, for each
      branch. Only a counted message changes the store; `storeFails` stands for
      a failure of the store's find-or-create, which drops the update. */
  method HandleMessage(store: UserStatsStore, msg: Option<Message>, storeFails: bool) returns (reply: Reply)
    requires store.Valid()
    modifies store
    ensures store.Valid()
    ensures Dispatch(msg).Ignore? ==> reply == Silent && store.records == old(store.records)
    ensures Dispatch(msg).HintReply? ==>
      reply == SendText(Dispatch(msg).chatId, Hint) && store.records == old(store.records)
    ensures Dispatch(msg).ShowStats? ==>
      && store.records == old(store.records)
      && reply.SendReport? && reply.chatId == Dispatch(msg).chat.id
      && IsReportFor(store.records, Dispatch(msg).chat, reply.report)
    ensures Dispatch(msg).CountActivity? ==>
      var a := Dispatch(msg);
      reply == Silent &&
      store.records == if storeFails then old(store.records)
                       else AfterUpdate(old(store.records), a.group, a.from, a.text)
  {
    match Dispatch(msg)
    case Ignore =>
      reply := Silent;
    case HintReply(chatId) =>
      reply := SendText(chatId, Hint);
    case ShowStats(chat) =>
      var report := SendGroupStats(store, chat);
      reply := SendReport(chat.id, report);
    case CountActivity(group, from, text) =>
      store.UpdateUserStats(group, from, text, storeFails);
      reply := Silent;
  }
}
