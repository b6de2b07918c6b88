/** One statistics document per (user, group) pair, with the five fields of the
    UserStats schema, and the rules that `updateUserStats` in bot.js applies to a
    loaded document when a message is counted. */
module StatsRecord {
  import opened Values

  /** The unique index of the store: one document per (user_id, group_id). */
  datatype Key = Key(user: int, group: int)

  datatype Record = Record(
    user_id: int,
    group_id: int,
    username: Option<string>,
    message_count: nat,
    average_message_length: Option<nat>)

  /** The sender of a message, as far as the statistics use it. */
  datatype Sender = Sender(id: int, username: Option<string>, first_name: Option<string>)

  function KeyOf(r: Record): Key {
    Key(r.user_id, r.group_id)
  }

  /** The document find-or-create inserts for a new pair: the key fields and the
      schema defaults (username null, message_count 0, average null). */
  function NewRecord(key: Key): Record {
    Record(key.user, key.group, None, 0, None)
  }

  /** `username || first_name || id`: the first non-empty name, else the id,
      which the string-typed schema field stores as its decimal text. */
  function ResolveName(from: Sender): (name: string)
    ensures |name| > 0
    ensures Truthy(from.username) ==> name == from.username.value
    ensures !Truthy(from.username) && Truthy(from.first_name) ==> name == from.first_name.value
    ensures !Truthy(from.username) && !Truthy(from.first_name) ==> name == DecimalString(from.id)
  {
    if Truthy(from.username) then from.username.value
    else if Truthy(from.first_name) then from.first_name.value
    else DecimalString(from.id)
  }

  /** `Math.ceil((a + n) / 2)` for non-negative integers a and n. */
  function HalfwayUp(a: nat, n: nat): (r: nat)
    ensures a + n <= 2 * r <= a + n + 1
  {
    (a + n + 1) / 2
  }

  function Min(a: int, b: int): int { if a <= b then a else b }
  function Max(a: int, b: int): int { if a <= b then b else a }

  /** The new average message length after a message with the given text: kept
      when there is no text or the text is empty; the text's length when no
      average is stored (a stored 0 is falsy too); otherwise halfway from the
      stored average towards the length, rounded up. */
  function NextAverage(prev: Option<nat>, text: Option<string>): (r: Option<nat>)
    ensures !Truthy(text) ==> r == prev
    ensures Truthy(text) && (prev == None || prev == Some(0)) ==> r == Some(|text.value|)
    ensures Truthy(text) && prev.Some? && prev.value > 0 ==>
      r.Some? && prev.value + |text.value| <= 2 * r.value <= prev.value + |text.value| + 1
    ensures Truthy(text) && prev.Some? ==>
      r.Some? && Min(prev.value, |text.value|) <= r.value <= Max(prev.value, |text.value|)
    ensures prev != Some(0) ==> r != Some(0)
  {
    if !Truthy(text) then prev
    else match prev
      case Some(a) => if a != 0 then Some(HalfwayUp(a, |text.value|)) else Some(|text.value|)
      case None => Some(|text.value|)
  }

  /** The changes `updateUserStats` makes to a loaded document, in source order:
      count one more message, re-resolve the name, move the average. */
  function ApplyMessage(stats: Record, from: Sender, text: Option<string>): Record {
    stats.(message_count := stats.message_count + 1)
         .(username := Some(ResolveName(from)))
         .(average_message_length := NextAverage(stats.average_message_length, text))
  }

  /** The averages that successive text lengths give from a document with no
      average yet: 3, 10, 1, 20 give 3, 7, 4, 12 (not the running means). */
  lemma HalfwaySmoothingTrace()
    ensures NextAverage(None, Some("abc")) == Some(3)
    ensures NextAverage(Some(3), Some("abcdefghij")) == Some(7)
    ensures NextAverage(Some(7), Some("a")) == Some(4)
    ensures NextAverage(Some(4), Some("abcdefghijklmnopqrst")) == Some(12)
  {
  }
}
