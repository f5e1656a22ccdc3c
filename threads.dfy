/**
 * Reply threads: the message kind from its media flags, the thread root of a reply, and the rule
 * for refreshing a thread's topic summary from its latest messages.
 */
module Threads {
  import opened Wrappers
  import opened Strings
  import opened Tokens
  import opened Summarizer

  /** `THREAD_SUMMARY_EVERY_N` and `THREAD_SUMMARY_LOOKBACK` when unset. */
  const DefaultSummaryEveryN: int := 8
  const DefaultSummaryLookback: int := 20

  /** `_kind_from_flags`: photo before voice before video before document; no flag is text. */
  function KindFromFlags(photo: bool, voice: bool, video: bool, doc: bool): (k: string)
    ensures k == "photo" <==> photo
    ensures k == "voice" <==> !photo && voice
    ensures k == "video" <==> !photo && !voice && video
    ensures k == "doc" <==> !photo && !voice && !video && doc
    ensures k == "text" <==> !photo && !voice && !video && !doc
  {
    if photo then "photo"
    else if voice then "voice"
    else if video then "video"
    else if doc then "doc"
    else "text"
  }

  /** The stored row of a message, as far as threads use it; `None` for SQL `NULL`. */
  datatype StoredMessage = StoredMessage(threadRoot: Option<int>)

  /** `_maybe_root_from_db`: the replied message's stored root when set and non-zero, else the replied id. */
  function RootFor(row: Option<StoredMessage>, replied: int): (root: int)
    ensures row.None? ==> root == replied
    ensures root != replied ==> row.Some? && row.value.threadRoot == Some(root) && root != 0
    ensures row.Some? && row.value.threadRoot.Some? && row.value.threadRoot.value != 0 ==>
      root == row.value.threadRoot.value
  {
    if row.None? then replied
    else match row.value.threadRoot
      case Some(r) => if r != 0 then r else replied
      case None => replied
  }

  /** A row of `fetch_thread_messages` (newest first). */
  datatype ThreadMessage = ThreadMessage(text: Option<string>, caption: Option<string>)

  /** A thread row; `topicSummary` is `None` for SQL `NULL`. */
  datatype ThreadRow = ThreadRow(topicSummary: Option<string>)

  /** `(r.get("text") or r.get("caption_text") or "").strip()` */
  function EntryText(r: ThreadMessage): string {
    Strip(OrEmpty(Or(r.text, r.caption)))
  }

  /** The summary block: oldest message first, blank ones skipped, every entry from the user. */
  function ThreadBlock(msgs: seq<ThreadMessage>): seq<RawMsg>
    decreases |msgs|
  {
    if |msgs| == 0 then []
    else ThreadBlock(msgs[1..]) + (if EntryText(msgs[0]) == "" then [] else [RawMsg(Some("user"), Some(EntryText(msgs[0])))])
  }

  /** Each block entry is a non-blank user line taken from one of the messages. */
  lemma {:induction false} ThreadBlockShape(msgs: seq<ThreadMessage>)
    ensures |ThreadBlock(msgs)| <= |msgs|
    ensures forall k :: 0 <= k < |ThreadBlock(msgs)| ==>
      ThreadBlock(msgs)[k].role == Some("user") && ThreadBlock(msgs)[k].content.Some? &&
      ThreadBlock(msgs)[k].content.value != ""
    decreases |msgs|
  {
    if |msgs| > 0 {
      ThreadBlockShape(msgs[1..]);
    }
  }

  /** Without blank messages the block lists every message, the oldest first. */
  lemma {:induction false} ThreadBlockOldestFirst(msgs: seq<ThreadMessage>)
    requires forall i :: 0 <= i < |msgs| ==> EntryText(msgs[i]) != ""
    ensures |ThreadBlock(msgs)| == |msgs|
    ensures forall k :: 0 <= k < |msgs| ==>
      ThreadBlock(msgs)[k] == RawMsg(Some("user"), Some(EntryText(msgs[|msgs| - 1 - k])))
    decreases |msgs|
  {
    if |msgs| > 0 {
      var rest := msgs[1..];
      assert forall i :: 0 <= i < |rest| ==> rest[i] == msgs[i + 1];
      ThreadBlockOldestFirst(rest);
    }
  }

  /** The `for r in reversed(msgs)` loop. */
  method BuildBlock(msgs: seq<ThreadMessage>) returns (block: seq<RawMsg>)
    ensures block == ThreadBlock(msgs)
  {
    block := [];
    var i := |msgs|;
    while i > 0
      invariant 0 <= i <= |msgs|
      invariant block == ThreadBlock(msgs[i..])
    {
      i := i - 1;
      assert msgs[i..][1..] == msgs[i + 1..];
      var txt := EntryText(msgs[i]);
      if txt == "" {
        continue;
      }
      block := block + [RawMsg(Some("user"), Some(txt))];
    }
  }

  /** Whether an existing topic summary holds the refresh back. */
  predicate HasSummary(thr: Option<ThreadRow>) {
    thr.Some? && Truthy(thr.value.topicSummary)
  }

  /**
   * What `build_thread_summary_if_needed` writes: `Ok(None)` for no write, `Ok(Some(s))` for
   * `set_thread_summary(s)`, `Err` when `% every_n` divides by zero or the summarizer raises.
   */
  function ThreadSummarySpec(msgs: seq<ThreadMessage>, thr: Option<ThreadRow>, everyN: int,
                             reply: LlmReply, enc: Option<Encoding>): Result<Option<string>>
  {
    if msgs == [] then Ok(None)
    else if HasSummary(thr) && everyN == 0 then Err("integer modulo by zero")
    else if HasSummary(thr) && |msgs| % everyN != 0 then Ok(None)
    else
      var block := ThreadBlock(msgs);
      if block == [] then Ok(None)
      else match SummarizeBlock(block, reply, enc)
        case Err(e) => Err(e)
        case Ok(s) => Ok(Some(s.summary))
  }

  /** No messages, or an existing summary off the every-N beat, means no summary work at all. */
  lemma ThreadSummaryNoWork(msgs: seq<ThreadMessage>, thr: Option<ThreadRow>, everyN: int,
                            reply: LlmReply, enc: Option<Encoding>)
    ensures msgs == [] ==> ThreadSummarySpec(msgs, thr, everyN, reply, enc) == Ok(None)
    ensures HasSummary(thr) && everyN != 0 && |msgs| % everyN != 0 ==>
      ThreadSummarySpec(msgs, thr, everyN, reply, enc) == Ok(None)
    ensures (forall i :: 0 <= i < |msgs| ==> EntryText(msgs[i]) == "") ==>
      ThreadSummarySpec(msgs, thr, everyN, reply, enc).Ok? ==> ThreadSummarySpec(msgs, thr, everyN, reply, enc) == Ok(None)
  {
    if forall i :: 0 <= i < |msgs| ==> EntryText(msgs[i]) == "" {
      BlankThreadBlock(msgs);
    }
  }

  lemma {:induction false} BlankThreadBlock(msgs: seq<ThreadMessage>)
    requires forall i :: 0 <= i < |msgs| ==> EntryText(msgs[i]) == ""
    ensures ThreadBlock(msgs) == []
    decreases |msgs|
  {
    if |msgs| > 0 {
      var rest := msgs[1..];
      assert forall i :: 0 <= i < |rest| ==> rest[i] == msgs[i + 1];
      BlankThreadBlock(rest);
    }
  }

  /** A written summary is the summarizer's summary of the block, and only a no-client or answered call writes. */
  lemma ThreadSummaryWrite(msgs: seq<ThreadMessage>, thr: Option<ThreadRow>, everyN: int,
                           reply: LlmReply, enc: Option<Encoding>)
    requires ThreadSummarySpec(msgs, thr, everyN, reply, enc).Ok?
    requires ThreadSummarySpec(msgs, thr, everyN, reply, enc).value.Some?
    ensures ThreadBlock(msgs) != [] && SummarizeBlock(ThreadBlock(msgs), reply, enc).Ok?
    ensures ThreadSummarySpec(msgs, thr, everyN, reply, enc).value.value ==
      SummarizeBlock(ThreadBlock(msgs), reply, enc).value.summary
    ensures reply.NoClient? || (reply.Reply? && reply.content.Some?)
  {
  }

  /** `build_thread_summary_if_needed` over the fetched rows, the thread row and the summarizer's reply. */
  method BuildThreadSummaryIfNeeded(msgs: seq<ThreadMessage>, thr: Option<ThreadRow>, everyN: int,
                                    reply: LlmReply, enc: Option<Encoding>) returns (res: Result<Option<string>>)
    ensures res == ThreadSummarySpec(msgs, thr, everyN, reply, enc)
  {
    if msgs == [] {
      return Ok(None);
    }
    if HasSummary(thr) {
      if everyN == 0 {
        return Err("integer modulo by zero");
      }
      if |msgs| % everyN != 0 {
        return Ok(None);
      }
    }
    var block := BuildBlock(msgs);
    if block == [] {
      return Ok(None);
    }
    var s := SummarizeBlock(block, reply, enc);
    if s.Err? {
      return Err(s.error);
    }
    return Ok(Some(s.value.summary));
  }

  // ---------------------------------------------------------------- the PTB message hook

  /** The store calls `handle_message_ptb` makes, in order. */
  datatype ThreadOp =
    | UpsertThread(root: int)
    | InsertMessage(msgId: int, userId: Option<int>, kind: string, text: string,
                    caption: Option<string>, hasMedia: bool, threadRoot: Option<int>)
    | RefreshSummary(root: int)

  /** An incoming PTB message, as far as the hook reads it. */
  datatype PtbMessage = PtbMessage(msgId: int, userId: Option<int>, photo: bool, voice: bool, video: bool,
                                   doc: bool, text: Option<string>, caption: Option<string>,
                                   replyTo: Option<int>)

  /** The thread root of a message: only replies have one. */
  function MessageRoot(m: PtbMessage, repliedRow: Option<StoredMessage>): Option<int> {
    if m.replyTo.Some? then Some(RootFor(repliedRow, m.replyTo.value)) else None
  }

  /**
   * `handle_message_ptb`, given the stored row of the replied message: for a reply, the thread is
   * upserted first; the message is always inserted; a truthy root then triggers the summary refresh.
   */
  function PtbPlan(m: PtbMessage, repliedRow: Option<StoredMessage>): seq<ThreadOp> {
    var root := MessageRoot(m, repliedRow);
    var kind := KindFromFlags(m.photo, m.voice, m.video, m.doc);
    var caption := if Truthy(m.caption) then Some(m.caption.value) else None;
    var insert := InsertMessage(m.msgId, m.userId, kind, OrEmpty(m.text), caption,
                                m.photo || m.voice || m.video || m.doc, root);
    (if root.Some? then [UpsertThread(root.value)] else []) + [insert] +
    (if root.Some? && root.value != 0 then [RefreshSummary(root.value)] else [])
  }

  /**
   * Exactly one insert; a thread upsert and a summary refresh only for replies, the upsert before
   * the insert and the refresh after it.
   */
  lemma PtbPlanShape(m: PtbMessage, repliedRow: Option<StoredMessage>)
    ensures var p := PtbPlan(m, repliedRow);
      (m.replyTo.None? ==> |p| == 1 && p[0].InsertMessage? && p[0].threadRoot.None?) &&
      (m.replyTo.Some? ==> 2 <= |p| <= 3 && p[0] == UpsertThread(RootFor(repliedRow, m.replyTo.value)) &&
                           p[1].InsertMessage? && p[1].threadRoot == Some(p[0].root)) &&
      (forall i :: 0 <= i < |p| && p[i].RefreshSummary? ==> i == 2 && m.replyTo.Some? && p[i].root != 0)
    ensures forall i :: 0 <= i < |PtbPlan(m, repliedRow)| && PtbPlan(m, repliedRow)[i].InsertMessage? ==>
      PtbPlan(m, repliedRow)[i].kind == KindFromFlags(m.photo, m.voice, m.video, m.doc)
  {
  }
}
