/**
 What the result of a tool call says (finalizePreparedToolCallExecution in
 src/application/chat/tool-orchestrator.ts), told from the session before the call and the session it
 left, for every call of every run.
 */
module ToolResults {
  import opened Options
  import opened Text
  import opened ToolScheduling

  /** One call of a run: the session at its snapshot, the session once it is finalised, and its final result. */
  datatype Episode<F> = Episode(before: Session, after: Session, final: F)

  ghost function Episodes<W(!new), L(!new), R(!new), F(!new), T(!new)>(
      t: Tools<W, L, R, F>, c: Collector<F, T>, ps: seq<Prepared>, w: W, s: Session): (es: seq<Episode<F>>)
    requires Ends(t)
    ensures |es| == |ps|
    decreases ps
  {
    if ps == [] then []
    else
      var raw := InvokeUnlessBlocked(t, ps[0], w, s);
      var final := t.finalize(ps[0], raw.0, raw.1, raw.2);
      var one := RunOne(t, c, ps[0], w, s);
      [Episode(s, final.0, final.1)] + Episodes(t, c, ps[1..], one.1, one.2)
  }

  /** Nothing that was logged is lost. */
  predicate Grows(before: Session, after: Session) {
    && before.messages <= after.messages && before.toolHistory <= after.toolHistory
    && before.commandHistory <= after.commandHistory && before.fileChanges <= after.fileChanges
  }

  // ----- what a result is to say -----

  /** The history entry that the call wrote first, if it wrote one. */
  ghost predicate OwnEntry<F>(e: Episode<F>, entry: Option<HistoryEntry>) {
    if |e.after.toolHistory| > |e.before.toolHistory| then entry == Some(e.after.toolHistory[|e.before.toolHistory|])
    else entry == None
  }

  /** What stands in for a missing tool message. */
  ghost predicate StandsIn(entry: Option<HistoryEntry>, text: string) {
    match entry
    case None => text == ""
    case Some(h) =>
      if h.success || IsBlank(h.error) then text == h.outputPreview
      else if StartsWith(Trim(h.error), "Error:") then text == Trim(h.error)
      else text == "Error: " + Trim(h.error)
  }

  /** At position `i` of `messages` stands a tool message of the call. */
  predicate OwnAt(messages: seq<Message>, id: string, i: int) {
    0 <= i < |messages| && messages[i].isToolResult && messages[i].toolCallId == id
  }

  /** `own` are the tool messages of the call, all of them, in order; `at` says where each stands. */
  ghost predicate OwnMessages(messages: seq<Message>, id: string, own: seq<Message>, at: seq<int>) {
    && |at| == |own|
    && (forall k :: 0 <= k < |own| ==> OwnAt(messages, id, at[k]) && own[k] == messages[at[k]])
    && (forall j, k :: 0 <= j < k < |own| ==> at[j] < at[k])
    && (forall i :: OwnAt(messages, id, i) ==> i in at)
  }

  /** The last change that carries a rollback point. */
  ghost predicate LastRollback(changes: seq<FileChange>, i: nat) {
    && i < |changes| && changes[i].rollbackPointId.Some?
    && forall j :: i < j < |changes| ==> changes[j].rollbackPointId.None?
  }

  ghost predicate CheckpointTells(p: Prepared, changes: seq<FileChange>, checkpoint: Checkpoint) {
    match checkpoint
    case NotRequired => !p.checkpointRequired
    case Captured(id) =>
      && p.checkpointRequired && id != ""
      && exists i: nat :: LastRollback(changes, i) && changes[i].rollbackPointId == Some(id)
    case Missing =>
      && p.checkpointRequired
      && forall i: nat :: LastRollback(changes, i) ==> changes[i].rollbackPointId == Some("")
  }

  /** The result of a call, and the session that its collecting leaves. */
  ghost predicate Tells<F>(
      p: Prepared, e: Episode<F>, denied: bool, r: ToolExecutionResult, left: Session,
      own: seq<Message>, at: seq<int>, fallback: string)
    requires Grows(e.before, e.after)
  {
    && r.id == p.call.id && r.name == p.call.name && r.permissionDenied == denied
    && OwnEntry(e, r.toolHistoryEntry)
    && (r.ok <==> r.toolHistoryEntry.Some? && r.toolHistoryEntry.value.success)
    && e.after.commandHistory == e.before.commandHistory + r.commandHistory
    && e.after.fileChanges == e.before.fileChanges + r.fileChanges
    && CheckpointTells(p, r.fileChanges, r.checkpoint)
    && OwnMessages(e.after.messages[|e.before.messages|..], p.call.id, own, at)
    && StandsIn(r.toolHistoryEntry, fallback)
    && (own != [] ==> r.modelMessages == own && r.output == own[|own| - 1].content && left == e.after)
    && (own == [] && fallback == "" ==> r.modelMessages == [] && r.output == "" && left == e.after)
    && (own == [] && fallback != "" ==>
          && r.modelMessages == [Message(true, p.call.id, fallback)] && r.output == fallback
          && left == e.after.(messages := e.after.messages + r.modelMessages))
  }

  // ----- one result -----

  function Later(at: seq<int>): seq<int> {
    if at == [] then [] else [at[0] + 1] + Later(at[1..])
  }

  lemma {:induction false} LaterAt(at: seq<int>)
    ensures |Later(at)| == |at| && forall k :: 0 <= k < |at| ==> Later(at)[k] == at[k] + 1
  {
    if at != [] {
      LaterAt(at[1..]);
    }
  }

  lemma InLater(at: seq<int>, i: int)
    ensures i in Later(at) <==> i - 1 in at
  {
    LaterAt(at);
    if i in Later(at) {
      var k :| 0 <= k < |Later(at)| && Later(at)[k] == i;
      assert at[k] == i - 1;
    }
    if i - 1 in at {
      var k :| 0 <= k < |at| && at[k] == i - 1;
      assert Later(at)[k] == i;
    }
  }

  lemma OwnLater(m: Message, messages: seq<Message>, id: string, i: int)
    ensures OwnAt([m] + messages, id, i) <==> OwnAt(messages, id, i - 1) || (i == 0 && OwnAt([m], id, 0))
  {
  }

  lemma SkipMessage(m: Message, messages: seq<Message>, id: string, own: seq<Message>, at: seq<int>)
    requires OwnMessages(messages, id, own, at) && !OwnAt([m], id, 0)
    ensures OwnMessages([m] + messages, id, own, Later(at))
  {
    LaterAt(at);
    var all := [m] + messages;
    forall i | OwnAt(all, id, i) ensures i in Later(at) {
      OwnLater(m, messages, id, i);
      InLater(at, i);
    }
    forall k | 0 <= k < |own| ensures OwnAt(all, id, Later(at)[k]) && own[k] == all[Later(at)[k]] {
      ShiftedMessage(m, messages, id, at[k]);
    }
  }

  lemma ShiftedMessage(m: Message, messages: seq<Message>, id: string, i: int)
    requires OwnAt(messages, id, i)
    ensures OwnAt([m] + messages, id, i + 1) && ([m] + messages)[i + 1] == messages[i]
  {
  }

  lemma KeepMessage(m: Message, messages: seq<Message>, id: string, own: seq<Message>, at: seq<int>)
    requires OwnMessages(messages, id, own, at) && OwnAt([m], id, 0)
    ensures OwnMessages([m] + messages, id, [m] + own, [0] + Later(at))
  {
    LaterAt(at);
    var all, to := [m] + messages, [0] + Later(at);
    forall i | OwnAt(all, id, i) ensures i in to {
      OwnLater(m, messages, id, i);
      InLater(at, i);
      assert to[0] == 0;
    }
    forall k | 0 <= k < |own| + 1 ensures OwnAt(all, id, to[k]) && ([m] + own)[k] == all[to[k]] {
      KeptAt(m, messages, id, own, at, k);
    }
    forall j, k | 0 <= j < k < |own| + 1 ensures to[j] < to[k] {
      KeptInOrder(messages, id, own, at, j, k);
    }
  }

  lemma KeptAt(m: Message, messages: seq<Message>, id: string, own: seq<Message>, at: seq<int>, k: nat)
    requires OwnMessages(messages, id, own, at) && OwnAt([m], id, 0) && k <= |own| && |Later(at)| == |at|
    ensures var all, to := [m] + messages, [0] + Later(at);
            OwnAt(all, id, to[k]) && ([m] + own)[k] == all[to[k]]
  {
    LaterAt(at);
    if k > 0 {
      ShiftedMessage(m, messages, id, at[k - 1]);
    }
  }

  lemma KeptInOrder(messages: seq<Message>, id: string, own: seq<Message>, at: seq<int>, j: nat, k: nat)
    requires OwnMessages(messages, id, own, at) && j < k <= |own| && |Later(at)| == |at|
    ensures ([0] + Later(at))[j] < ([0] + Later(at))[k]
  {
    LaterAt(at);
    assert OwnAt(messages, id, at[k - 1]);
  }

  lemma {:induction false} MessagesAre(messages: seq<Message>, id: string) returns (at: seq<int>)
    ensures OwnMessages(messages, id, ToolMessagesFor(messages, id), at)
    decreases messages
  {
    hide OwnMessages;
    if messages == [] {
      at := [];
      NoMessages(id);
    } else {
      var rest := MessagesAre(messages[1..], id);
      assert [messages[0]] + messages[1..] == messages;
      if OwnAt([messages[0]], id, 0) {
        KeepMessage(messages[0], messages[1..], id, ToolMessagesFor(messages[1..], id), rest);
        at := [0] + Later(rest);
      } else {
        SkipMessage(messages[0], messages[1..], id, ToolMessagesFor(messages[1..], id), rest);
        at := Later(rest);
      }
      assert [] + ToolMessagesFor(messages[1..], id) == ToolMessagesFor(messages[1..], id);
    }
  }

  lemma NoMessages(id: string)
    ensures OwnMessages([], id, [], [])
  {
  }

  lemma BlankIsTrimmed(s: string)
    ensures IsBlank(s) <==> Trim(s) == ""
  {
    var lo, hi := TrimBounds(s);
  }

  lemma FallbackStandsIn(entry: Option<HistoryEntry>)
    ensures StandsIn(entry, FallbackContent(entry))
  {
    if entry.Some? {
      BlankIsTrimmed(entry.value.error);
    }
  }

  lemma {:induction false} LastRollbackIs(changes: seq<FileChange>)
    ensures match LastRollbackPoint(changes)
            case None => forall i: nat :: !LastRollback(changes, i)
            case Some(id) => exists i: nat :: LastRollback(changes, i) && changes[i].rollbackPointId == Some(id)
    decreases |changes|
  {
    if changes != [] {
      var n := |changes| - 1;
      var front := changes[..n];
      if changes[n].rollbackPointId.Some? {
        assert LastRollback(changes, n);
      } else {
        LastRollbackIs(front);
        forall i: nat ensures LastRollback(changes, i) <==> LastRollback(front, i) {
          if LastRollback(front, i) {
            assert forall j :: i < j < n ==> changes[j] == front[j];
          }
        }
      }
    }
  }

  lemma OneRollback(changes: seq<FileChange>, i: nat, j: nat)
    requires LastRollback(changes, i) && LastRollback(changes, j)
    ensures i == j
  {
  }

  lemma CheckpointIsTold(p: Prepared, changes: seq<FileChange>)
    ensures CheckpointTells(p, changes, CheckpointOf(p, changes))
  {
    LastRollbackIs(changes);
    if p.checkpointRequired && LastRollbackPoint(changes) == Some("") {
      var i: nat :| LastRollback(changes, i) && changes[i].rollbackPointId == Some("");
      forall j: nat | LastRollback(changes, j) ensures changes[j].rollbackPointId == Some("") {
        OneRollback(changes, i, j);
      }
    }
  }

  lemma SinceIsRest<T>(before: seq<T>, after: seq<T>)
    requires before <= after
    ensures after == before + after[|before|..]
  {
  }

  /** The messages, the output and the session that are left. */
  lemma CollectedMessages(p: Prepared, before: Session, after: Session, denied: bool)
    requires Grows(before, after)
    ensures var c := Collect(p, before, after, denied);
            var own := ToolMessagesFor(after.messages[|before.messages|..], p.call.id);
            var fallback := FallbackContent(c.0.toolHistoryEntry);
            var stood := Message(true, p.call.id, fallback);
            && (own != [] ==> c.0.modelMessages == own && c.0.output == own[|own| - 1].content && c.1 == after)
            && (own == [] && fallback == "" ==> c.0.modelMessages == [] && c.0.output == "" && c.1 == after)
            && (own == [] && fallback != "" ==>
                  && c.0.modelMessages == [stood] && c.0.output == fallback
                  && c.1 == after.(messages := after.messages + [stood]))
  {
    hide ToolMessagesFor, FallbackContent, CheckpointOf;
  }

  lemma CollectedLogs(p: Prepared, before: Session, after: Session, denied: bool)
    requires Grows(before, after)
    ensures var r := Collect(p, before, after, denied).0;
            && r.id == p.call.id && r.name == p.call.name && r.permissionDenied == denied
            && (r.ok <==> r.toolHistoryEntry.Some? && r.toolHistoryEntry.value.success)
            && r.toolHistoryEntry == (if |after.toolHistory| > |before.toolHistory|
                                      then Some(after.toolHistory[|before.toolHistory|]) else None)
            && after.commandHistory == before.commandHistory + r.commandHistory
            && after.fileChanges == before.fileChanges + r.fileChanges
            && r.checkpoint == CheckpointOf(p, r.fileChanges)
  {
    hide ToolMessagesFor, FallbackContent, CheckpointOf;
    SinceIsRest(before.commandHistory, after.commandHistory);
    SinceIsRest(before.fileChanges, after.fileChanges);
  }

  /** What is collected for one call. */
  lemma CollectTells<F>(p: Prepared, e: Episode<F>, denied: bool)
      returns (own: seq<Message>, at: seq<int>, fallback: string)
    requires Grows(e.before, e.after)
    ensures var c := Collect(p, e.before, e.after, denied); Tells(p, e, denied, c.0, c.1, own, at, fallback)
  {
    hide ToolMessagesFor, FallbackContent, CheckpointOf, OwnMessages, StandsIn, CheckpointTells, Collect;
    var added := e.after.messages[|e.before.messages|..];
    var r := Collect(p, e.before, e.after, denied).0;
    own, fallback := ToolMessagesFor(added, p.call.id), FallbackContent(r.toolHistoryEntry);
    at := MessagesAre(added, p.call.id);
    CollectedMessages(p, e.before, e.after, denied);
    CollectedLogs(p, e.before, e.after, denied);
    FallbackStandsIn(r.toolHistoryEntry);
    CheckpointIsTold(p, r.fileChanges);
  }

  // ----- a whole run -----

  /** The session that the collecting of call `i` leaves: where the next call begins, or the end. */
  ghost function Left<F>(es: seq<Episode<F>>, end: Session, i: nat): Session
    requires i < |es|
  {
    if i + 1 < |es| then es[i + 1].before else end
  }

  /** Every result of every run says what its own call did. */
  lemma {:induction false} EveryResultTellsItsCall<W(!new), L(!new), R(!new), F(!new)>(
      t: Tools<W, L, R, F>, ps: seq<Prepared>, w: W, s: Session, i: nat)
      returns (own: seq<Message>, at: seq<int>, fallback: string)
    requires Ends(t) && i < |ps|
    requires var e := Episodes(t, Orchestrator(t), ps, w, s)[i]; Grows(e.before, e.after)
    ensures var o := OneByOne(t, Orchestrator(t), ps, w, s);
            var es := Episodes(t, Orchestrator(t), ps, w, s);
            && |o.results| == |ps|
            && Tells(ps[i], es[i], t.denied(es[i].final), o.results[i], Left(es, o.session, i), own, at, fallback)
    decreases ps
  {
    hide Tells, Collect, InvokeUnlessBlocked, Grows;
    var c := Orchestrator(t);
    var one := RunOne(t, c, ps[0], w, s);
    ResultsForAll(t, c, ps[1..], one.1, one.2);
    EpisodesChain(t, c, ps, w, s);
    if i == 0 {
      var e := Episodes(t, c, ps, w, s)[0];
      own, at, fallback := CollectTells(ps[0], e, t.denied(e.final));
    } else {
      own, at, fallback := EveryResultTellsItsCall(t, ps[1..], one.1, one.2, i - 1);
    }
  }

  lemma {:induction false} ResultsForAll<W(!new), L(!new), R(!new), F(!new), T(!new)>(
      t: Tools<W, L, R, F>, c: Collector<F, T>, ps: seq<Prepared>, w: W, s: Session)
    requires Ends(t)
    ensures |OneByOne(t, c, ps, w, s).results| == |ps|
    decreases ps
  {
    hide RunOne;
    if ps != [] {
      var one := RunOne(t, c, ps[0], w, s);
      ResultsForAll(t, c, ps[1..], one.1, one.2);
    }
  }

  /** The next call begins in the session that the one before it left. */
  lemma EpisodesChain<W(!new), L(!new), R(!new), F(!new), T(!new)>(
      t: Tools<W, L, R, F>, c: Collector<F, T>, ps: seq<Prepared>, w: W, s: Session)
    requires Ends(t) && ps != []
    ensures var es := Episodes(t, c, ps, w, s);
            var one := RunOne(t, c, ps[0], w, s);
            && es[0].before == s
            && Left(es, OneByOne(t, c, ps, w, s).session, 0) == one.2
            && forall i: nat :: 0 < i < |ps| ==>
                 && es[i] == Episodes(t, c, ps[1..], one.1, one.2)[i - 1]
                 && Left(es, OneByOne(t, c, ps, w, s).session, i)
                    == Left(Episodes(t, c, ps[1..], one.1, one.2),
                            OneByOne(t, c, ps[1..], one.1, one.2).session, i - 1)
  {
    hide RunOne, InvokeUnlessBlocked;
  }

  // ----- every call is answered -----

  /** No call takes anything out of the session. */
  ghost predicate LogsGrow<W(!new), L(!new), R(!new), F(!new)>(t: Tools<W, L, R, F>)
    requires Ends(t)
  {
    forall p: Prepared, w, s :: Grows(s, SessionAfter(t, p, w, s))
  }

  /** There is a tool message for `id` in `messages` at or after position `from`. */
  ghost predicate Answered(messages: seq<Message>, id: string, from: nat) {
    exists i :: from <= i && OwnAt(messages, id, i)
  }

  lemma AnsweredMore(messages: seq<Message>, more: seq<Message>, id: string, from: nat)
    requires messages <= more && Answered(messages, id, from)
    ensures Answered(more, id, from)
  {
    var i :| from <= i && OwnAt(messages, id, i);
    assert OwnAt(more, id, i);
  }

  lemma {:induction false} MessagesStay<W(!new), L(!new), R(!new), F(!new)>(
      t: Tools<W, L, R, F>, ps: seq<Prepared>, w: W, s: Session)
    requires Ends(t) && LogsGrow(t)
    ensures s.messages <= OneByOne(t, Orchestrator(t), ps, w, s).session.messages
    decreases ps
  {
    if ps != [] {
      var one := RunOne(t, Orchestrator(t), ps[0], w, s);
      OneAnswered(t, ps[0], w, s);
      MessagesStay(t, ps[1..], one.1, one.2);
    }
  }

  lemma OneAnswered<W(!new), L(!new), R(!new), F(!new)>(t: Tools<W, L, R, F>, p: Prepared, w: W, s: Session)
    requires Ends(t) && LogsGrow(t)
    ensures var one := RunOne(t, Orchestrator(t), p, w, s);
            && s.messages <= one.2.messages
            && (StandsIn(one.0.toolHistoryEntry, "") || Answered(one.2.messages, p.call.id, |s.messages|))
  {
    var after := SessionAfter(t, p, w, s);
    assert Grows(s, after);
    var raw := InvokeUnlessBlocked(t, p, w, s);
    var final := t.finalize(p, raw.0, raw.1, raw.2);
    var e := Episode(s, after, final.1);
    hide Collect, InvokeUnlessBlocked, LogsGrow, Tells, Grows;
    var own, at, fallback := CollectTells(p, e, t.denied(final.1));
    var one := RunOne(t, Orchestrator(t), p, w, s);
    ToldIsAnswered(p, e, t.denied(final.1), one.0, one.2, own, at, fallback);
  }

  lemma ToldIsAnswered<F>(
      p: Prepared, e: Episode<F>, denied: bool, r: ToolExecutionResult, left: Session,
      own: seq<Message>, at: seq<int>, fallback: string)
    requires Grows(e.before, e.after) && Tells(p, e, denied, r, left, own, at, fallback)
    ensures e.before.messages <= left.messages
    ensures StandsIn(r.toolHistoryEntry, "") || Answered(left.messages, p.call.id, |e.before.messages|)
  {
    hide StandsIn, CheckpointTells, OwnEntry;
    var n := |e.before.messages|;
    if own != [] {
      assert OwnAt(e.after.messages[n..], p.call.id, at[0]);
      assert OwnAt(left.messages, p.call.id, at[0] + n);
    } else if fallback != "" {
      assert OwnAt(left.messages, p.call.id, |e.after.messages|);
    }
  }

  /** After a run every call has a tool message of its own in the session, unless there is nothing to say. */
  lemma {:induction false} EveryCallIsAnswered<W(!new), L(!new), R(!new), F(!new)>(
      t: Tools<W, L, R, F>, ps: seq<Prepared>, w: W, s: Session, i: nat)
    requires Ends(t) && LogsGrow(t) && i < |ps|
    ensures var o := OneByOne(t, Orchestrator(t), ps, w, s);
            && |o.results| == |ps|
            && (StandsIn(o.results[i].toolHistoryEntry, "")
                || Answered(o.session.messages, ps[i].call.id, |s.messages|))
    decreases ps
  {
    hide RunOne, Answered, LogsGrow;
    var one := RunOne(t, Orchestrator(t), ps[0], w, s);
    ResultsForAll(t, Orchestrator(t), ps[1..], one.1, one.2);
    OneAnswered(t, ps[0], w, s);
    var end := OneByOne(t, Orchestrator(t), ps, w, s).session.messages;
    if i == 0 {
      MessagesStay(t, ps[1..], one.1, one.2);
      if !StandsIn(one.0.toolHistoryEntry, "") {
        AnsweredMore(one.2.messages, end, ps[0].call.id, |s.messages|);
      }
    } else {
      EveryCallIsAnswered(t, ps[1..], one.1, one.2, i - 1);
      if Answered(end, ps[i].call.id, |one.2.messages|) {
        AnsweredFrom(end, ps[i].call.id, |s.messages|, |one.2.messages|);
      }
    }
  }

  lemma AnsweredFrom(messages: seq<Message>, id: string, from: nat, later: nat)
    requires from <= later && Answered(messages, id, later)
    ensures Answered(messages, id, from)
  {
    var i :| later <= i && OwnAt(messages, id, i);
    assert from <= i;
  }
}
