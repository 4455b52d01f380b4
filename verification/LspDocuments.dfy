/**
 The documents that are open in a language server (src/core/agent/lsp-client.ts), as in
 section "Text Document Synchronization" of the Language Server Protocol Specification 3.17.
 */
module LspDocuments {
  import opened Options

  type Uri = string

  datatype Tracked = Tracked(version: nat, text: string)

  /** A notification to the server. */
  datatype Note = DidOpen(uri: Uri, version: nat, text: string) | DidChange(uri: Uri, version: nat, text: string)

  /** The client: what it tracks, whether its transport can be written, what went over this connection. */
  datatype Client = Client(documents: map<Uri, Tracked>, output: Option<bool>, sent: seq<Note>)

  datatype Event =
    | Attach                            // a transport has been started
    | Die                               // it can no longer be written
    | Sync(uri: Uri, text: string)      // a file has been read
    | Edit(uri: Uri, text: string)      // the server had a file edited, and it has been read again
    | Close

  const START := Client(map[], None, [])

  predicate CanSend(c: Client) {
    c.output == Some(true)
  }

  /** The document is tracked before the notification is sent, which fails on a dead transport. */
  function SyncTo(c: Client, uri: Uri, text: string): Client {
    if uri !in c.documents then
      c.(documents := c.documents[uri := Tracked(1, text)],
         sent := if CanSend(c) then c.sent + [DidOpen(uri, 1, text)] else c.sent)
    else if c.documents[uri].text != text then
      var version := c.documents[uri].version + 1;
      c.(documents := c.documents[uri := Tracked(version, text)],
         sent := if CanSend(c) then c.sent + [DidChange(uri, version, text)] else c.sent)
    else c
  }

  /** A notification was due and could not be sent. */
  predicate SyncThrows(c: Client, uri: Uri, text: string) {
    !CanSend(c) && !(uri in c.documents && c.documents[uri].text == text)
  }

  /** An edit by the server moves a tracked document without a notification. */
  function EditTo(c: Client, uri: Uri, text: string): Client {
    if uri !in c.documents then c
    else c.(documents := c.documents[uri := Tracked(c.documents[uri].version + 1, text)])
  }

  function Step(c: Client, e: Event): Client {
    match e
    case Attach => c.(output := Some(true), sent := [])
    case Die => if c.output.Some? then c.(output := Some(false)) else c
    case Sync(uri, text) => SyncTo(c, uri, text)
    case Edit(uri, text) => EditTo(c, uri, text)
    case Close => if c.output.Some? then c.(documents := map[], output := None) else c
  }

  function Run(c: Client, events: seq<Event>): Client
    decreases |events|
  {
    if events == [] then c else Run(Step(c, events[0]), events[1..])
  }

  /** A sync fails exactly if it has tracked something new and told the server nothing. */
  lemma SyncFailsExactly(c: Client, uri: Uri, text: string)
    ensures SyncThrows(c, uri, text)
            <==> SyncTo(c, uri, text).documents != c.documents && SyncTo(c, uri, text).sent == c.sent
  {
    var d := SyncTo(c, uri, text);
    if d.documents == c.documents && uri in c.documents {
      assert d.documents[uri].text == text;
    }
  }

  /** A file is tracked from version 1 on, and each text read anew and each edit makes one more of it. */
  lemma VersionsCount(c: Client, e: Event, uri: Uri)
    requires uri in Step(c, e).documents
    ensures var now := Step(c, e).documents[uri];
            if uri !in c.documents then e.Sync? && e.uri == uri && now == Tracked(1, e.text)
            else if (e.Edit? && e.uri == uri) || (e.Sync? && e.uri == uri && e.text != c.documents[uri].text) then
              now == Tracked(c.documents[uri].version + 1, e.text)
            else now == c.documents[uri]
  {
  }

  // ----- the server's side of a connection -----

  /** The documents that the server has open. */
  function Replay(sent: seq<Note>): map<Uri, Tracked> {
    if sent == [] then map[]
    else
      var n, before := sent[|sent| - 1], Replay(sent[..|sent| - 1]);
      before[n.uri := Tracked(n.version, n.text)]
  }

  /** An unopened document can be opened; an open one can be changed to a newer version. */
  predicate CanReceive(server: map<Uri, Tracked>, n: Note) {
    match n
    case DidOpen(uri, _, _) => uri !in server
    case DidChange(uri, version, _) => uri in server && server[uri].version < version
  }

  /** A document is opened once and before it is changed, and its versions increase. */
  predicate FollowsProtocol(sent: seq<Note>) {
    sent != [] ==>
      FollowsProtocol(sent[..|sent| - 1]) && CanReceive(Replay(sent[..|sent| - 1]), sent[|sent| - 1])
  }

  /** While it can be told, the server has the tracked documents open, none newer than tracked. */
  ghost predicate InStep(c: Client) {
    && FollowsProtocol(c.sent)
    && (CanSend(c) ==> Covers(c.documents, Replay(c.sent)))
  }

  ghost predicate Covers(documents: map<Uri, Tracked>, server: map<Uri, Tracked>) {
    && documents.Keys == server.Keys
    && forall uri :: uri in documents ==>
         server[uri].version <= documents[uri].version
  }

  lemma ReplayAppend(sent: seq<Note>, n: Note)
    ensures Replay(sent + [n]) == Replay(sent)[n.uri := Tracked(n.version, n.text)]
    ensures FollowsProtocol(sent + [n]) <==> FollowsProtocol(sent) && CanReceive(Replay(sent), n)
  {
  }

  lemma SyncKeepsInStep(c: Client, uri: Uri, text: string)
    requires InStep(c)
    ensures InStep(SyncTo(c, uri, text))
  {
  }

  /** A step keeps client and server in step, unless it starts a transport while documents are tracked. */
  lemma StepKeepsInStepExactly(c: Client, e: Event)
    requires InStep(c)
    ensures InStep(Step(c, e)) <==> !(e.Attach? && c.documents != map[])
  {
    match e
    case Attach =>
      assert Replay([]) == map[];
      assert c.documents.Keys == {} ==> c.documents == map[];
    case Die =>
    case Sync(uri, text) => SyncKeepsInStep(c, uri, text);
    case Edit(uri, text) =>
    case Close =>
  }

  // ----- which clients are safe -----

  ghost predicate SameConnection(events: seq<Event>) {
    forall k :: 0 <= k < |events| ==> !events[k].Attach?
  }

  /** Whatever happens on this connection from here on, its notifications follow the protocol. */
  ghost predicate Safe(c: Client) {
    forall events :: SameConnection(events) ==> FollowsProtocol(Run(c, events).sent)
  }

  lemma {:induction false} InStepIsSafe(c: Client, events: seq<Event>)
    requires InStep(c) && SameConnection(events)
    ensures FollowsProtocol(Run(c, events).sent)
    decreases |events|
  {
    if events != [] {
      assert !events[0].Attach?;
      StepKeepsInStepExactly(c, events[0]);
      InStepIsSafe(Step(c, events[0]), events[1..]);
    }
  }

  /** One sync of a document that is out of step breaks the protocol. */
  lemma OutOfStepShows(c: Client, uri: Uri)
    requires FollowsProtocol(c.sent) && CanSend(c)
    requires var server := Replay(c.sent);
             (uri in c.documents) != (uri in server)
             || (uri in c.documents && server[uri].version > c.documents[uri].version)
    ensures !Safe(c)
  {
    var text := if uri in c.documents then c.documents[uri].text + "x" else "";
    var events := [Sync(uri, text)];
    assert events[1..] == [] && SameConnection(events);
    assert Run(c, events) == SyncTo(c, uri, text);
    var n := if uri in c.documents then DidChange(uri, c.documents[uri].version + 1, text) else DidOpen(uri, 1, text);
    ReplayAppend(c.sent, n);
    assert !FollowsProtocol(Run(c, events).sent);
  }

  /** For every client: its connection will follow the protocol whatever happens, exactly if it is in step. */
  lemma SafeExactly(c: Client)
    ensures Safe(c) <==> InStep(c)
  {
    if InStep(c) {
      forall events | SameConnection(events) ensures FollowsProtocol(Run(c, events).sent) {
        InStepIsSafe(c, events);
      }
    } else if Safe(c) {
      assert SameConnection([]) && Run(c, []) == c;
      var server := Replay(c.sent);
      var uri :| (uri in c.documents) != (uri in server)
                 || (uri in c.documents && server[uri].version > c.documents[uri].version);
      OutOfStepShows(c, uri);
    }
  }

  /**
   A step of a client whose connection is bound to follow the protocol leaves such a client, exactly
   if it is not the start of a transport while documents are tracked.
   */
  lemma StepKeepsProtocolExactly(c: Client, e: Event)
    requires Safe(c)
    ensures Safe(Step(c, e)) <==> !(e.Attach? && c.documents != map[])
  {
    hide Safe, InStep, Step;
    SafeExactly(c);
    SafeExactly(Step(c, e));
    StepKeepsInStepExactly(c, e);
  }

  /** The client is safe at the begin and after every event. */
  ghost predicate SafeThroughout(c: Client, events: seq<Event>)
    decreases |events|
  {
    Safe(c) && (events != [] ==> SafeThroughout(Step(c, events[0]), events[1..]))
  }

  /**
   Over every run: every connection is bound to follow the protocol, exactly if no transport is
   started while documents are tracked.
   */
  lemma {:induction false} RunKeepsProtocolExactly(c: Client, events: seq<Event>)
    requires Safe(c)
    ensures SafeThroughout(c, events) <==> OneTransport(c, events)
    decreases |events|
  {
    if events != [] {
      hide Safe, Step;
      StepKeepsProtocolExactly(c, events[0]);
      if Safe(Step(c, events[0])) {
        RunKeepsProtocolExactly(Step(c, events[0]), events[1..]);
      }
    }
  }

  /** No transport is started while documents are tracked. */
  predicate OneTransport(c: Client, events: seq<Event>)
    decreases |events|
  {
    events != [] ==> !(events[0].Attach? && c.documents != map[]) && OneTransport(Step(c, events[0]), events[1..])
  }

  /** Over every run: each connection opens a document once before changing it, with increasing versions. */
  lemma {:induction false} EveryConnectionFollowsProtocol(c: Client, events: seq<Event>)
    requires InStep(c) && OneTransport(c, events)
    ensures InStep(Run(c, events)) && FollowsProtocol(Run(c, events).sent)
    decreases |events|
  {
    if events != [] {
      StepKeepsInStepExactly(c, events[0]);
      EveryConnectionFollowsProtocol(Step(c, events[0]), events[1..]);
    }
  }

  /** Two overlapping starts: the second server is told of a change in a document it never opened. */
  lemma SecondTransportBreaksProtocol(uri: Uri, text: string, other: string)
    requires text != other
    ensures !FollowsProtocol(Run(START, [Attach, Sync(uri, text), Attach, Sync(uri, other)]).sent)
  {
    var c := SyncTo(Step(START, Attach), uri, text);
    var d := SyncTo(Step(c, Attach), uri, other);
    RunFour(START, Attach, Sync(uri, text), Attach, Sync(uri, other));
    assert d.sent == [] + [DidChange(uri, 2, other)];
    ReplayAppend([], DidChange(uri, 2, other));
  }

  lemma RunFour(c: Client, e: Event, f: Event, g: Event, h: Event)
    ensures Run(c, [e, f, g, h]) == Step(Step(Step(Step(c, e), f), g), h)
  {
    assert [e, f, g, h][1..] == [f, g, h] && [f, g, h][1..] == [g, h] && [g, h][1..] == [h] && [h][1..] == [];
    var c1 := Step(c, e);
    var c2 := Step(c1, f);
    var c3 := Step(c2, g);
    assert Run(c, [e, f, g, h]) == Run(c1, [f, g, h]) == Run(c2, [g, h]) == Run(c3, [h]) == Run(Step(c3, h), []);
  }

  // ----- what the server knows -----

  /** The server's documents are the tracked ones, version and text. */
  ghost predicate Mirrored(c: Client) {
    InStep(c) && (CanSend(c) ==> Replay(c.sent) == c.documents)
  }

  lemma SyncKeepsMirror(c: Client, uri: Uri, text: string)
    requires CanSend(c) && Replay(c.sent) == c.documents
    ensures Replay(SyncTo(c, uri, text).sent) == SyncTo(c, uri, text).documents
  {
    hide FollowsProtocol, Replay;
    ReplayAppend(c.sent, DidOpen(uri, 1, text));
    if uri in c.documents {
      ReplayAppend(c.sent, DidChange(uri, c.documents[uri].version + 1, text));
    }
  }

  lemma StepKeepsMirror(c: Client, e: Event)
    requires Mirrored(c) && !e.Edit? && !(e.Attach? && c.documents != map[])
    ensures Mirrored(Step(c, e))
  {
    assert Replay([]) == map[];
    hide InStep, Replay;
    StepKeepsInStepExactly(c, e);
    if e.Sync? && CanSend(c) {
      SyncKeepsMirror(c, e.uri, e.text);
    }
  }

  /** Without edits by the server, its documents are the tracked ones after every run. */
  lemma {:induction false} RunKeepsMirror(c: Client, events: seq<Event>)
    requires Mirrored(c) && OneTransport(c, events)
    requires forall k :: 0 <= k < |events| ==> !events[k].Edit?
    ensures Mirrored(Run(c, events))
    decreases |events|
  {
    if events != [] {
      StepKeepsMirror(c, events[0]);
      RunKeepsMirror(Step(c, events[0]), events[1..]);
    }
  }

  /** So a file that has just been read is what the server has, if the transport still works. */
  lemma SyncedTextReachesServer(events: seq<Event>, uri: Uri, text: string)
    requires OneTransport(START, events) && forall k :: 0 <= k < |events| ==> !events[k].Edit?
    requires CanSend(Run(START, events))
    ensures var after := SyncTo(Run(START, events), uri, text);
            uri in Replay(after.sent) && Replay(after.sent)[uri].text == text
  {
    assert Replay([]) == map[];
    RunKeepsMirror(START, events);
    StepKeepsMirror(Run(START, events), Sync(uri, text));
  }

  // ----- what the server knows, told without versions and without a log -----

  /**
   What the client has seen of one file: whether it can send, the text last seen in the file, by a
   sync or after an edit, and the text that the server was last told on this connection.
   */
  datatype Known = Known(output: Option<bool>, seen: Option<string>, told: Option<string>)

  function Learn(k: Known, e: Event, uri: Uri): Known {
    match e
    case Attach => k.(output := Some(true), told := None)
    case Die => if k.output.Some? then k.(output := Some(false)) else k
    case Sync(u, text) =>
      if u != uri || k.seen == Some(text) then k
      else k.(seen := Some(text), told := if k.output == Some(true) then Some(text) else k.told)
    case Edit(u, text) => if u != uri || k.seen.None? then k else k.(seen := Some(text))
    case Close => if k.output.Some? then k.(output := None, seen := None) else k
  }

  function LearnAll(events: seq<Event>, uri: Uri): Known {
    if events == [] then Known(None, None, None)
    else Learn(LearnAll(events[..|events| - 1], uri), events[|events| - 1], uri)
  }

  function TextIn(documents: map<Uri, Tracked>, uri: Uri): Option<string> {
    if uri in documents then Some(documents[uri].text) else None
  }

  lemma NoteTells(sent: seq<Note>, n: Note, uri: Uri)
    ensures TextIn(Replay(sent + [n]), uri) == if n.uri == uri then Some(n.text) else TextIn(Replay(sent), uri)
  {
    ReplayAppend(sent, n);
  }

  function KnownOf(c: Client, uri: Uri): Known {
    Known(c.output, TextIn(c.documents, uri), TextIn(Replay(c.sent), uri))
  }

  lemma SyncLearns(c: Client, u: Uri, text: string, uri: Uri)
    ensures KnownOf(SyncTo(c, u, text), uri) == Learn(KnownOf(c, uri), Sync(u, text), uri)
  {
    hide Replay;
    if u !in c.documents {
      NoteTells(c.sent, DidOpen(u, 1, text), uri);
    } else if c.documents[u].text != text {
      NoteTells(c.sent, DidChange(u, c.documents[u].version + 1, text), uri);
    }
  }

  lemma StepLearns(c: Client, e: Event, uri: Uri)
    ensures KnownOf(Step(c, e), uri) == Learn(KnownOf(c, uri), e, uri)
  {
    assert Replay([]) == map[];
    hide Replay;
    if e.Sync? {
      SyncLearns(c, e.uri, e.text, uri);
    }
  }

  lemma {:induction false} RunAppend(c: Client, events: seq<Event>, e: Event)
    ensures Run(c, events + [e]) == Step(Run(c, events), e)
    decreases |events|
  {
    hide Step;
    if events == [] {
      assert events + [e] == [e] && [e][1..] == [];
      assert Run(c, [e]) == Run(Step(c, e), []);
    } else {
      assert (events + [e])[1..] == events[1..] + [e];
      RunAppend(Step(c, events[0]), events[1..], e);
    }
  }

  /** For every run, overlapping starts included: the server has the text that it was last told. */
  lemma {:induction false} ServerHasWhatItWasTold(events: seq<Event>, uri: Uri)
    ensures LearnAll(events, uri) == KnownOf(Run(START, events), uri)
  {
    if events == [] {
      assert Replay([]) == map[];
    } else {
      var n := |events| - 1;
      hide Learn, Step, KnownOf;
      ServerHasWhatItWasTold(events[..n], uri);
      assert events == events[..n] + [events[n]];
      RunAppend(START, events[..n], events[n]);
      StepLearns(Run(START, events[..n]), events[n], uri);
    }
  }

  /**
   For every run: the text just read is what the server has, exactly unless the client had already
   seen that text in the file (where an edit put it, or on a transport that could not be written)
   and what it last told the server on this connection is not that text.
   */
  lemma SyncedTextReachesServerExactly(events: seq<Event>, uri: Uri, text: string)
    requires CanSend(Run(START, events))
    ensures var k := LearnAll(events, uri);
            TextIn(Replay(SyncTo(Run(START, events), uri, text).sent), uri) == Some(text)
            <==> !(k.seen == Some(text) && k.told != Some(text))
  {
    var c := Run(START, events);
    ServerHasWhatItWasTold(events, uri);
    StepLearns(c, Sync(uri, text), uri);
  }

  /** An edit hides its text from the next sync, and only that text. */
  lemma EditHidesItsText(c: Client, uri: Uri, text: string, read: string)
    requires InStep(c) && CanSend(c) && uri in c.documents && Replay(c.sent)[uri].text != text
    ensures var server := Replay(SyncTo(EditTo(c, uri, text), uri, read).sent);
            uri in server && (server[uri].text == read <==> read != text)
  {
  }

  /** On a dead transport the first sync of a text throws, and the second one passes without a word to the server. */
  lemma DeadTransportIsNoticedOnce(c: Client, uri: Uri, text: string)
    requires !CanSend(c)
    ensures var after := SyncTo(c, uri, text);
            && after.sent == c.sent
            && !SyncThrows(after, uri, text) && SyncTo(after, uri, text) == after
  {
  }

  // ----- the client object -----

  class StdioLanguageServerClient {
    var documents: map<Uri, Tracked>
    var output: Option<bool>
    var sent: seq<Note>

    ghost function State(): Client
      reads this
    {
      Client(documents, output, sent)
    }

    constructor ()
      ensures State() == START
    {
      documents, output, sent := map[], None, [];
    }

    method StartTransport()
      modifies this
      ensures State() == Step(old(State()), Attach)
      ensures old(InStep(State())) ==> (InStep(State()) <==> old(documents) == map[])
    {
      ghost var before := State();
      output, sent := Some(true), [];
      if InStep(before) {
        StepKeepsInStepExactly(before, Attach);
      }
    }

    method SendNotification(note: Note) returns (threw: bool)
      modifies `sent
      ensures threw <==> !CanSend(old(State()))
      ensures sent == if threw then old(sent) else old(sent) + [note]
    {
      if output != Some(true) {
        return true;
      }
      sent := sent + [note];
      return false;
    }

    method SyncDocument(uri: Uri, text: string) returns (threw: bool)
      modifies this
      ensures State() == SyncTo(old(State()), uri, text)
      ensures threw <==> SyncThrows(old(State()), uri, text)
      ensures uri in documents && documents[uri].text == text
      ensures old(InStep(State())) ==> InStep(State())
    {
      ghost var before := State();
      if InStep(before) {
        SyncKeepsInStep(before, uri, text);
      }
      threw := false;
      if uri !in documents {
        documents := documents[uri := Tracked(1, text)];
        threw := SendNotification(DidOpen(uri, 1, text));
      } else if documents[uri].text != text {
        var version := documents[uri].version + 1;
        documents := documents[uri := Tracked(version, text)];
        threw := SendNotification(DidChange(uri, version, text));
      }
    }

    /** The files of an edit are read again, one after the other. */
    method ApplyWorkspaceEdit(files: seq<(Uri, string)>)
      modifies `documents
      ensures State() == Run(old(State()), Edits(files))
      ensures old(InStep(State())) ==> InStep(State())
      ensures documents.Keys == old(documents).Keys
    {
      hide InStep;
      ghost var before := State();
      assert files[0..] == files;
      for i := 0 to |files|
        invariant output == old(output) && sent == old(sent)
        invariant Run(State(), Edits(files[i..])) == Run(before, Edits(files))
        invariant InStep(before) ==> InStep(State())
        invariant documents.Keys == old(documents).Keys
      {
        var (uri, text) := files[i];
        EditsRest(State(), files, i);
        if InStep(State()) {
          StepKeepsInStepExactly(State(), Edit(uri, text));
        }
        if uri in documents {
          documents := documents[uri := Tracked(documents[uri].version + 1, text)];
        }
      }
      assert files[|files|..] == [];
    }

    method Close()
      modifies this
      ensures State() == Step(old(State()), Event.Close)
      ensures old(output) != None ==> documents == map[] && output == None
    {
      if output == None {
        return;
      }
      documents, output := map[], None;
    }
  }

  ghost function Edits(files: seq<(Uri, string)>): seq<Event> {
    seq(|files|, k requires 0 <= k < |files| => Edit(files[k].0, files[k].1))
  }

  lemma EditsRest(c: Client, files: seq<(Uri, string)>, i: nat)
    requires i < |files|
    ensures Run(c, Edits(files[i..])) == Run(Step(c, Edit(files[i].0, files[i].1)), Edits(files[i + 1..]))
  {
    assert Edits(files[i..])[1..] == Edits(files[i + 1..]);
  }
}
