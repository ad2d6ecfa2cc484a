/** The chat REPL: a transcript, a system prompt, an engine context and saved sessions. */
module Chat {
  import opened Machine
  import opened Text
  import opened TokenList

  const SYSTEM := "system"
  const USER := "user"
  const ASSISTANT := "assistant"

  datatype Message = Message(role: string, content: string)

  const SCHEMA_VERSION: nat := 1

  /** A session snapshot. `sampler` stands for the recorded sampler parameters and seed,
      `stamps` for its timestamps, and `sidecar` names the KV-cache file it refers to, if any. */
  datatype Session = Session(
    schemaVersion: nat, modelId: string, messages: seq<Message>, sampler: nat, stamps: nat, sidecar: Option<string>)

  /** What decoding a file gives. */
  datatype File = Unreadable | Snapshot(session: Session)

  /** One call of the model: the context it started from, the prompt, and the transcript the
      prompt was rendered from. */
  datatype Generation = Generation(context: string, prompt: string, transcript: seq<Message>)

  /** Collaborators: the model, which sees sampler settings, how often it was asked before, its
      context and a prompt (so it is free to answer the same prompt differently each time, or
      to fail), the chat template, which file a path names and whether it can be written, and
      which sidecars check out. */
  datatype World = World(
    generate: (nat, nat, string, string) -> Option<string>,
    render: seq<Message> -> string,
    file: string -> string,
    writable: string -> bool,
    sidecarValid: string -> bool,
    modelId: string)

  /** `sampler` is what the process was started with; no command changes it. */
  datatype State = State(
    session: Session, systemPrompt: Option<string>, sampler: nat, context: string,
    files: map<string, File>, log: seq<Generation>)

  // ---------------------------------------------------------------- pieces

  /** `seed_system_message` */
  function Seed(messages: seq<Message>, systemPrompt: Option<string>): seq<Message> {
    var rest := if messages != [] && messages[0].role == SYSTEM then messages[1..] else messages;
    match systemPrompt
    case None => rest
    case Some(text) => [Message(SYSTEM, text)] + rest
  }

  predicate EmptyReply(m: Message) {
    m.role == ASSISTANT && m.content == ""
  }

  /** The turns `render_session` hands to the template. */
  function Turns(messages: seq<Message>): seq<Message> {
    if messages == [] then []
    else
      var n := |messages| - 1;
      var m := messages[n];
      Turns(messages[..n]) + if EmptyReply(m) then [] else [m]
  }

  /** `load_for_model`; `None` is any of its errors. */
  function LoadSession(w: World, files: map<string, File>, path: string): Option<Session> {
    var name := w.file(path);
    if name !in files || files[name].Unreadable? then None
    else
      var s := files[name].session;
      if s.schemaVersion != SCHEMA_VERSION then None
      else if s.sidecar.Some? && !w.sidecarValid(s.sidecar.value) then None
      else if s.modelId != w.modelId then None
      else Some(s)
  }

  datatype Command =
    | Blank | Quit | ResetAll
    | System(text: string) | Save(path: string) | Load(path: string) | Say(text: string)

  function ParseLine(line: string): Command {
    var input := Trim(line);
    if input == "" then Blank
    else if input == "/quit" || input == "/exit" then Quit
    else if input == "/reset" then ResetAll
    else if StartsWith(input, "/system ") then System(input[|"/system "|..])
    else if StartsWith(input, "/save ") then Save(Trim(input[|"/save "|..]))
    else if StartsWith(input, "/load ") then Load(Trim(input[|"/load "|..]))
    else Say(input)
  }

  // ---------------------------------------------------------------- one command, the loop

  /** Ending, by choice or by an error of the model, keeps the last state. */
  datatype Outcome = Running(state: State) | Ended(state: State)

  function Obey(w: World, c: State, cmd: Command): Outcome {
    match cmd
    case Blank => Running(c)
    case Quit => Ended(c)
    case ResetAll => Running(c.(session := c.session.(messages := Seed([], c.systemPrompt)), context := ""))
    case System(text) =>
      Running(c.(systemPrompt := Some(text), session := c.session.(messages := Seed(c.session.messages, Some(text)))))
    case Save(path) =>
      Running(if w.writable(path) then c.(files := c.files[w.file(path) := Snapshot(c.session)]) else c)
    case Load(path) => (
      match LoadSession(w, c.files, path)
      case None => Running(c)
      case Some(s) => Running(c.(session := s)))
    case Say(text) =>
      var asked := c.session.messages + [Message(USER, text)];
      var prompt := w.render(Turns(asked));
      var log := c.log + [Generation("", prompt, asked)];
      match w.generate(c.sampler, |c.log|, "", prompt)
      case None => Ended(c.(session := c.session.(messages := asked), context := prompt, log := log))
      case Some(reply) =>
        Running(c.(session := c.session.(messages := asked + [Message(ASSISTANT, reply)]),
                   context := prompt + reply, log := log))
  }

  function RunCommands(w: World, c: State, cmds: seq<Command>): Outcome
    decreases cmds
  {
    if cmds == [] then Running(c)
    else match Obey(w, c, cmds[0])
      case Ended(last) => Ended(last)
      case Running(next) => RunCommands(w, next, cmds[1..])
  }

  function ParseLines(lines: seq<string>): (cmds: seq<Command>)
    ensures |cmds| == |lines|
  {
    seq(|lines|, i requires 0 <= i < |lines| => ParseLine(lines[i]))
  }

  /** A new process: its session records the sampler settings it was started with. */
  function Fresh(w: World, systemPrompt: Option<string>, sampler: nat, stamps: nat, files: map<string, File>): State {
    State(Session(SCHEMA_VERSION, w.modelId, Seed([], systemPrompt), sampler, stamps, None),
          systemPrompt, sampler, "", files, [])
  }

  /** The inference engine: what it has consumed since it was last reset. */
  class Engine {
    var context: string

    constructor ()
      ensures context == ""
    {
      context := "";
    }

    method Reset()
      modifies this
      ensures context == ""
    {
      context := "";
    }

    /** Continues from the current context; appends the prompt and the reply to it. */
    method Generate(w: World, sampler: nat, call: nat, prompt: string) returns (reply: Option<string>)
      modifies this
      ensures reply == w.generate(sampler, call, old(context), prompt)
      ensures context == old(context) + prompt + (if reply.Some? then reply.value else "")
    {
      reply := w.generate(sampler, call, context, prompt);
      context := context + prompt + (if reply.Some? then reply.value else "");
    }
  }

  class Repl {
    const w: World
    const engine: Engine
    const sampler: nat
    var session: Session
    var systemPrompt: Option<string>
    var files: map<string, File>
    var log: seq<Generation>

    constructor (w: World, systemPrompt: Option<string>, sampler: nat, stamps: nat, files: map<string, File>)
      ensures this.w == w && fresh(engine) && Abs() == Fresh(w, systemPrompt, sampler, stamps, files)
    {
      this.w, this.sampler := w, sampler;
      this.engine := new Engine();
      this.session := Session(SCHEMA_VERSION, w.modelId, [], sampler, stamps, None);
      this.systemPrompt, this.files, this.log := systemPrompt, files, [];
      new;
      SeedSystemMessage();
    }

    function Abs(): State
      reads this, engine
    {
      State(session, systemPrompt, sampler, engine.context, files, log)
    }

    /** Removes a leading system message in place, then inserts the current one. */
    method SeedSystemMessage()
      modifies this`session
      ensures session == old(session).(messages := Seed(old(session.messages), systemPrompt))
    {
      var messages := session.messages;
      if messages != [] && messages[0].role == SYSTEM {
        messages := messages[1..];
      }
      if systemPrompt.Some? {
        messages := [Message(SYSTEM, systemPrompt.value)] + messages;
      }
      session := session.(messages := messages);
    }

    /** One round of the loop; `running` is false when the loop is left. */
    method Handle(line: string) returns (running: bool)
      modifies this, engine
      ensures Obey(w, old(Abs()), ParseLine(line)) == if running then Running(Abs()) else Ended(Abs())
    {
      hide Seed, Turns, Trim;
      var input := Trim(line);
      if input == "" {
        return true;
      }
      if input == "/quit" || input == "/exit" {
        return false;
      } else if input == "/reset" {
        engine.Reset();
        session := session.(messages := []);
        SeedSystemMessage();
        return true;
      } else if StartsWith(input, "/system ") {
        systemPrompt := Some(input[|"/system "|..]);
        SeedSystemMessage();
        return true;
      } else if StartsWith(input, "/save ") {
        var path := Trim(input[|"/save "|..]);
        if w.writable(path) {
          files := files[w.file(path) := Snapshot(session)];
        }
        return true;
      } else if StartsWith(input, "/load ") {
        var loaded := LoadSession(w, files, Trim(input[|"/load "|..]));
        if loaded.Some? {
          session := loaded.value;
        }
        return true;
      }
      session := session.(messages := session.messages + [Message(USER, input)]);
      engine.Reset();
      var prompt := w.render(Turns(session.messages));
      var contextBefore := engine.context;
      var reply := engine.Generate(w, sampler, |log|, prompt);
      log := log + [Generation(contextBefore, prompt, session.messages)];
      assert "" + prompt == prompt && prompt + "" == prompt;
      if reply.None? {
        return false;
      }
      session := session.(messages := session.messages + [Message(ASSISTANT, reply.value)]);
      return true;
    }

    /** The read loop over the lines typed before end of input. */
    method Loop(lines: seq<string>) returns (running: bool)
      modifies this, engine
      ensures RunCommands(w, old(Abs()), ParseLines(lines)) == if running then Running(Abs()) else Ended(Abs())
    {
      hide Obey, ParseLine;
      ghost var start := Abs();
      ghost var cmds := ParseLines(lines);
      assert cmds[0..] == cmds;
      for i := 0 to |lines|
        invariant RunCommands(w, start, cmds) == RunCommands(w, Abs(), cmds[i..])
      {
        assert cmds[i..][0] == ParseLine(lines[i]) && cmds[i..][1..] == cmds[i + 1..];
        var goOn := Handle(lines[i]);
        if !goOn {
          return false;
        }
      }
      assert cmds[|lines|..] == [];
      return true;
    }
  }

  // ---------------------------------------------------------------- the transcript invariant

  /** User and assistant messages in turn, in whole pairs. */
  predicate Paired(messages: seq<Message>) {
    && |messages| % 2 == 0
    && forall i :: 0 <= i < |messages| ==> messages[i].role == if i % 2 == 0 then USER else ASSISTANT
  }

  /** The messages behind a leading system message. */
  function Body(messages: seq<Message>): seq<Message> {
    if messages != [] && messages[0].role == SYSTEM then messages[1..] else messages
  }

  /** The content of a leading system message. */
  function Head(messages: seq<Message>): Option<string> {
    if messages != [] && messages[0].role == SYSTEM then Some(messages[0].content) else None
  }

  /** At most one system message, in front, then whole user/assistant pairs. */
  predicate WellFormed(messages: seq<Message>) {
    Paired(Body(messages))
  }

  ghost predicate SessionOk(w: World, s: Session) {
    && s.schemaVersion == SCHEMA_VERSION && s.modelId == w.modelId && WellFormed(s.messages)
    && (s.sidecar.Some? ==> w.sidecarValid(s.sidecar.value))
  }

  ghost predicate GenerationOk(w: World, g: Generation) {
    && g.context == "" && g.prompt == w.render(Turns(g.transcript))
    && g.transcript != []
    && WellFormed(g.transcript[..|g.transcript| - 1]) && g.transcript[|g.transcript| - 1].role == USER
  }

  /** Every snapshot that can be loaded is well formed: so is each one the machine writes. */
  ghost predicate FilesOk(w: World, files: map<string, File>) {
    forall path: string :: LoadSession(w, files, path).Some? ==> SessionOk(w, LoadSession(w, files, path).value)
  }

  ghost predicate LogOk(w: World, log: seq<Generation>) {
    forall g :: g in log ==> GenerationOk(w, g)
  }

  /** The invariant of the machine. */
  ghost predicate Invariant(w: World, c: State) {
    SessionOk(w, c.session) && FilesOk(w, c.files) && LogOk(w, c.log)
  }

  /** What a failed generation leaves: a well-formed transcript and the one message behind it
      that was not answered. */
  ghost predicate Unanswered(w: World, c: State) {
    && c.session.modelId == w.modelId && FilesOk(w, c.files) && LogOk(w, c.log)
    && c.log != [] && c.session.messages == c.log[|c.log| - 1].transcript
  }

  lemma SeedWellFormed(messages: seq<Message>, prompt: Option<string>)
    requires WellFormed(messages)
    ensures WellFormed(Seed(messages, prompt))
    ensures Body(Seed(messages, prompt)) == Body(messages) && Head(Seed(messages, prompt)) == prompt
  {
    var body := Body(messages);
    assert body != [] ==> body[0].role == USER;
    if prompt.Some? {
      assert ([Message(SYSTEM, prompt.value)] + body)[1..] == body;
    }
  }

  /** Re-seeding replaces the system message and never accumulates. */
  lemma ReseedingReplaces(messages: seq<Message>, first: Option<string>, second: Option<string>)
    requires WellFormed(messages)
    ensures Seed(Seed(messages, first), second) == Seed(messages, second)
  {
    SeedWellFormed(messages, first);
  }

  lemma TurnWellFormed(messages: seq<Message>, text: string, reply: string)
    requires WellFormed(messages)
    ensures var asked := messages + [Message(USER, text)];
            && WellFormed(asked[..|asked| - 1]) && Head(asked) == Head(messages)
            && WellFormed(asked + [Message(ASSISTANT, reply)])
            && Head(asked + [Message(ASSISTANT, reply)]) == Head(messages)
  {
    hide Paired;
    var asked := messages + [Message(USER, text)];
    assert asked[..|asked| - 1] == messages;
    var all := asked + [Message(ASSISTANT, reply)];
    var body, pair := Body(messages), [Message(USER, text), Message(ASSISTANT, reply)];
    assert Body(all) == body + pair && Head(asked) == Head(messages) && Head(all) == Head(messages);
    PairAppended(body, text, reply);
  }

  lemma PairAppended(body: seq<Message>, text: string, reply: string)
    requires Paired(body)
    ensures Paired(body + [Message(USER, text), Message(ASSISTANT, reply)])
  {
  }

  /** Every command keeps the invariant, and the sampler settings of the process; when the
      model fails, the loop ends with one unanswered message behind a well-formed transcript. */
  lemma ObeyKeepsOk(w: World, c: State, cmd: Command)
    requires Invariant(w, c)
    ensures var out := Obey(w, c, cmd);
            && (Invariant(w, out.state) || (out.Ended? && Unanswered(w, out.state)))
            && (out.Running? ==> Invariant(w, out.state))
            && out.state.sampler == c.sampler
  {
    hide SessionOk, GenerationOk, WellFormed, Seed, Turns;
    EmptyWellFormed();
    SessionWellFormed(w, c.session);
    match cmd {
      case Blank =>
      case Quit =>
      case ResetAll => ReseedOk(w, c.session, [], c.systemPrompt);
      case System(text) => ReseedOk(w, c.session, c.session.messages, Some(text));
      case Save(path) => SaveKeepsOk(w, c, path);
      case Load(path) =>
      case Say(text) => SayKeepsOk(w, c, text);
    }
  }

  lemma ReseedOk(w: World, s: Session, messages: seq<Message>, prompt: Option<string>)
    requires SessionOk(w, s) && WellFormed(messages)
    ensures SessionOk(w, s.(messages := Seed(messages, prompt)))
  {
    SeedWellFormed(messages, prompt);
  }

  lemma SessionWellFormed(w: World, s: Session)
    requires SessionOk(w, s)
    ensures WellFormed(s.messages)
  {
  }

  lemma EmptyWellFormed()
    ensures WellFormed([])
  {
  }

  lemma SayKeepsOk(w: World, c: State, text: string)
    requires Invariant(w, c)
    ensures var out := Obey(w, c, Say(text));
            && |out.state.log| == |c.log| + 1 && GenerationOk(w, out.state.log[|c.log|])
            && (if out.Running? then Invariant(w, out.state) else Unanswered(w, out.state))
  {
    hide WellFormed, Turns, FilesOk, LogOk, GenerationOk;
    var asked := c.session.messages + [Message(USER, text)];
    var prompt := w.render(Turns(asked));
    TurnLogged(w, c, text);
    var reply := w.generate(c.sampler, |c.log|, "", prompt);
    if reply.Some? {
      TurnWellFormed(c.session.messages, text, reply.value);
    }
  }

  lemma TurnLogged(w: World, c: State, text: string)
    requires Invariant(w, c)
    ensures var asked := c.session.messages + [Message(USER, text)];
            var g := Generation("", w.render(Turns(asked)), asked);
            GenerationOk(w, g) && LogOk(w, c.log + [g])
  {
    hide WellFormed, Turns;
    TurnWellFormed(c.session.messages, text, "");
  }

  lemma SaveKeepsOk(w: World, c: State, path: string)
    requires Invariant(w, c)
    ensures FilesOk(w, c.files[w.file(path) := Snapshot(c.session)])
  {
    hide SessionOk;
    var files := c.files[w.file(path) := Snapshot(c.session)];
    forall p: string | LoadSession(w, files, p).Some?
      ensures SessionOk(w, LoadSession(w, files, p).value)
    {
      if w.file(p) != w.file(path) {
        assert LoadSession(w, files, p) == LoadSession(w, c.files, p);
      }
    }
  }

  function Answer(reply: Option<string>): seq<Message> {
    match reply
    case None => []
    case Some(text) => [Message(ASSISTANT, text)]
  }

  /** Everything but the transcript. */
  predicate OnlyMessagesDiffer(a: Session, b: Session) {
    a == b.(messages := a.messages)
  }

  /** What each command leaves, told by the system message, the turns behind it, and the rest of
      the state. */
  ghost predicate Effect(w: World, c: State, cmd: Command, out: Outcome) {
    var d := out.state;
    && d.sampler == c.sampler
    && match cmd
       case Blank => out == Running(c)
       case Quit => out == Ended(c)
       case ResetAll =>
         && out.Running? && Body(d.session.messages) == [] && Head(d.session.messages) == c.systemPrompt
         && OnlyMessagesDiffer(d.session, c.session) && d.context == ""
         && d.systemPrompt == c.systemPrompt && d.files == c.files && d.log == c.log
       case System(text) =>
         && out.Running? && Body(d.session.messages) == Body(c.session.messages)
         && Head(d.session.messages) == Some(text) && d.systemPrompt == Some(text)
         && OnlyMessagesDiffer(d.session, c.session)
         && d.context == c.context && d.files == c.files && d.log == c.log
       case Save(path) =>
         && out.Running? && d == c.(files := d.files)
         && (forall name: string :: name != w.file(path) || !w.writable(path) ==>
               (name in d.files <==> name in c.files) && (name in c.files ==> d.files[name] == c.files[name]))
         && (w.writable(path) ==> w.file(path) in d.files && d.files[w.file(path)] == Snapshot(c.session))
       case Load(path) =>
         && out.Running? && d == c.(session := d.session)
         && (Loads(w, c.files, path) ==> d.session == c.files[w.file(path)].session)
         && (!Loads(w, c.files, path) ==> d.session == c.session)
       case Say(text) =>
         var user := Message(USER, text);
         var prompt := w.render(Turns(c.session.messages + [user]));
         var reply := w.generate(c.sampler, |c.log|, "", prompt);
         && (out.Running? <==> reply.Some?)
         && Head(d.session.messages) == Head(c.session.messages)
         && Body(d.session.messages) == Body(c.session.messages) + [user] + Answer(reply)
         && OnlyMessagesDiffer(d.session, c.session)
         && d.systemPrompt == c.systemPrompt && d.files == c.files
         && d.log == c.log + [Generation("", prompt, c.session.messages + [user])]
  }

  /** A file loads if it holds a snapshot of this schema, for this model, with a sound sidecar. */
  predicate Loads(w: World, files: map<string, File>, path: string) {
    && w.file(path) in files && files[w.file(path)].Snapshot?
    && var s := files[w.file(path)].session;
    s.schemaVersion == 1 && s.modelId == w.modelId && (s.sidecar.Some? ==> w.sidecarValid(s.sidecar.value))
  }

  /** Every command has its effect: a reset forgets the conversation, a new system prompt and
      every other command but a load keeps it, and a turn adds one pair. */
  lemma EveryEffect(w: World, c: State, cmd: Command)
    requires Invariant(w, c)
    ensures Effect(w, c, cmd, Obey(w, c, cmd))
  {
    hide Turns, FilesOk, LogOk, WellFormed, Body, Head;
    EmptyWellFormed();
    SessionWellFormed(w, c.session);
    match cmd {
      case ResetAll =>
        SeedWellFormed([], c.systemPrompt);
        EmptyBody();
      case System(text) => SeedWellFormed(c.session.messages, Some(text));
      case Say(text) => SayEffect(w, c, text);
      case _ =>
    }
  }

  lemma EmptyBody()
    ensures Body([]) == []
  {
  }

  lemma SayEffect(w: World, c: State, text: string)
    requires WellFormed(c.session.messages)
    ensures Effect(w, c, Say(text), Obey(w, c, Say(text)))
  {
    hide Turns, WellFormed;
    var user := Message(USER, text);
    var asked := c.session.messages + [user];
    var reply := w.generate(c.sampler, |c.log|, "", w.render(Turns(asked)));
    BehindBody(c.session.messages, user);
    assert Body(asked) + [] == Body(asked);
    if reply.Some? {
      BehindBody(asked, Message(ASSISTANT, reply.value));
    }
  }

  lemma BehindBody(messages: seq<Message>, m: Message)
    requires m.role != SYSTEM
    ensures Body(messages + [m]) == Body(messages) + [m] && Head(messages + [m]) == Head(messages)
  {
  }

  /** The invariant over whole runs, ended or not: started with files whose loadable snapshots
      are well formed, after any commands the transcript is at most one leading system message
      and whole pairs, with one unanswered message behind it only if the model failed; the
      model id is the one started with, and every generation so far began from an empty engine
      context with a prompt that is a function of the transcript alone. */
  lemma {:induction false} RunsKeepOk(w: World, c: State, cmds: seq<Command>)
    requires Invariant(w, c)
    ensures var out := RunCommands(w, c, cmds);
            && (Invariant(w, out.state) || (out.Ended? && Unanswered(w, out.state)))
            && (out.Running? ==> Invariant(w, out.state))
    decreases cmds
  {
    hide Obey, Invariant, Unanswered;
    if cmds != [] {
      ObeyKeepsOk(w, c, cmds[0]);
      if Obey(w, c, cmds[0]).Running? {
        RunsKeepOk(w, Obey(w, c, cmds[0]).state, cmds[1..]);
      }
    }
  }

  lemma FreshOk(w: World, systemPrompt: Option<string>, sampler: nat, stamps: nat, files: map<string, File>)
    requires FilesOk(w, files)
    ensures Invariant(w, Fresh(w, systemPrompt, sampler, stamps, files))
  {
    SeedWellFormed([], systemPrompt);
  }

  lemma {:induction false} TurnsAppend(a: seq<Message>, b: seq<Message>)
    ensures Turns(a + b) == Turns(a) + Turns(b)
    decreases |b|
  {
    if b == [] {
      assert a + b == a;
    } else {
      var n := |b| - 1;
      assert (a + b)[..|a| + n] == a + b[..n];
      TurnsAppend(a, b[..n]);
    }
  }

  lemma {:induction false} TurnsAre(a: seq<Message>, m: Message)
    ensures m in Turns(a) <==> m in a && !EmptyReply(m)
    ensures |Turns(a)| <= |a|
  {
    if a != [] {
      var n := |a| - 1;
      TurnsAre(a[..n], m);
      assert m in a <==> m in a[..n] || m == a[n];
    }
  }

  lemma {:induction false} TurnsKeepAll(a: seq<Message>)
    requires forall i :: 0 <= i < |a| ==> !EmptyReply(a[i])
    ensures Turns(a) == a
  {
    hide EmptyReply;
    if a != [] {
      var n := |a| - 1;
      TurnsKeepAll(a[..n]);
      assert a == a[..n] + [a[n]];
    }
  }

  /** The template sees the transcript in order, except replies that were empty: it sees all
      of it exactly when no reply was, and otherwise strictly less. */
  lemma TemplateSeesTranscript(a: seq<Message>, m: Message)
    ensures m in Turns(a) <==> m in a && !EmptyReply(m)
    ensures Turns(a) == a <==> forall m :: m in a ==> !EmptyReply(m)
  {
    TurnsAre(a, m);
    if forall m :: m in a ==> !EmptyReply(m) {
      TurnsKeepAll(a);
    } else {
      var e :| e in a && EmptyReply(e);
      TurnsAre(a, e);
    }
  }

  // ---------------------------------------------------------------- saving and loading

  /** None of the commands saves to the file `path` names, however they spell it. */
  ghost predicate SparesFile(w: World, cmds: seq<Command>, path: string) {
    forall p: string :: Save(p) in cmds ==> w.file(p) != w.file(path)
  }

  lemma {:induction false} FileKept(w: World, c: State, cmds: seq<Command>, path: string)
    requires w.file(path) in c.files && RunCommands(w, c, cmds).Running?
    requires SparesFile(w, cmds, path)
    ensures w.file(path) in RunCommands(w, c, cmds).state.files
    ensures RunCommands(w, c, cmds).state.files[w.file(path)] == c.files[w.file(path)]
    decreases cmds
  {
    if cmds != [] {
      assert cmds[0] in cmds;
      assert forall cmd :: cmd in cmds[1..] ==> cmd in cmds;
      FileKept(w, Obey(w, c, cmds[0]).state, cmds[1..], path);
    }
  }

  /** Saving, then any commands that do not save to the same file, then loading, restores the
      session exactly as it was when it was saved. */
  lemma SaveThenLoadRestores(w: World, c: State, path: string, between: seq<Command>)
    requires Invariant(w, c) && w.writable(path) && SparesFile(w, between, path)
    requires RunCommands(w, Obey(w, c, Save(path)).state, between).Running?
    ensures var later := RunCommands(w, Obey(w, c, Save(path)).state, between).state;
            Obey(w, later, Load(path)) == Running(later.(session := c.session))
  {
    hide RunCommands;
    FileKept(w, Obey(w, c, Save(path)).state, between, path);
  }

  lemma SaveThenLoad(w: World, c: State, path: string, later: State)
    requires Invariant(w, c) && w.writable(path) && later.files == Obey(w, c, Save(path)).state.files
    ensures Obey(w, later, Load(path)) == Running(later.(session := c.session))
    ensures Obey(w, c, Save(path)).state == c.(files := Obey(w, c, Save(path)).state.files)
  {
  }

  // ---------------------------------------------------------------- stale context

  /** The model answers a prompt in a given context, under given sampler settings, always in
      the same way. */
  ghost predicate Deterministic(w: World) {
    forall sampler: nat, j: nat, k: nat, context: string, prompt: string ::
      w.generate(sampler, j, context, prompt) == w.generate(sampler, k, context, prompt)
  }

  /** Two states of processes started with the same sampler settings, that may differ in what
      the engine still holds, and, if the model is deterministic, in what it was asked before. */
  ghost predicate Alike(w: World, a: State, b: State) {
    && a.session == b.session && a.systemPrompt == b.systemPrompt && a.files == b.files && a.sampler == b.sampler
    && (a.log == b.log || Deterministic(w))
  }

  lemma AlikeStep(w: World, a: State, b: State, cmd: Command)
    requires Alike(w, a, b)
    ensures Obey(w, a, cmd).Running? <==> Obey(w, b, cmd).Running?
    ensures Alike(w, Obey(w, a, cmd).state, Obey(w, b, cmd).state)
  {
    hide Seed, Turns;
  }

  /** The engine context left by earlier turns, loads and resets never shows: whatever two
      engines hold, the same commands give the same sessions, files, prompts and replies. */
  lemma {:induction false} ContextNeverShows(w: World, a: State, b: State, cmds: seq<Command>)
    requires Alike(w, a, b)
    ensures RunCommands(w, a, cmds).Running? <==> RunCommands(w, b, cmds).Running?
    ensures Alike(w, RunCommands(w, a, cmds).state, RunCommands(w, b, cmds).state)
    decreases cmds
  {
    hide Obey, Alike;
    if cmds != [] {
      AlikeStep(w, a, b, cmds[0]);
      if Obey(w, a, cmds[0]).Running? {
        ContextNeverShows(w, Obey(w, a, cmds[0]).state, Obey(w, b, cmds[0]).state, cmds[1..]);
      }
    }
  }

  /** Saving a session, starting the program afresh with the same system prompt and sampler
      settings, and loading it is the same as never having stopped, for every continuation. */
  lemma ResumingIsContinuing(w: World, c: State, path: string, stamps: nat, cmds: seq<Command>)
    requires Invariant(w, c) && w.writable(path) && Deterministic(w)
    ensures var saved := Obey(w, c, Save(path)).state;
            var resumed := Obey(w, Fresh(w, c.systemPrompt, c.sampler, stamps, saved.files), Load(path)).state;
            var there, here := RunCommands(w, saved, cmds), RunCommands(w, resumed, cmds);
            && (there.Running? <==> here.Running?)
            && there.state.session == here.state.session
            && there.state.systemPrompt == here.state.systemPrompt && there.state.files == here.state.files
  {
    hide Deterministic, Seed, RunCommands;
    var saved := Obey(w, c, Save(path)).state;
    var resumed := Obey(w, Fresh(w, c.systemPrompt, c.sampler, stamps, saved.files), Load(path)).state;
    assert Alike(w, saved, resumed);
    ContextNeverShows(w, saved, resumed, cmds);
  }

  lemma SameAnswer(asked: seq<Message>, a: Option<string>, b: Option<string>)
    ensures asked + Answer(a) == asked + Answer(b) <==> a == b
  {
    assert (asked + Answer(a))[|asked|..] == Answer(a) && (asked + Answer(b))[|asked|..] == Answer(b);
  }

  lemma SaySession(w: World, c: State, text: string)
    ensures var asked := c.session.messages + [Message(USER, text)];
            Obey(w, c, Say(text)).state.session
            == c.session.(messages := asked + Answer(w.generate(c.sampler, |c.log|, "", w.render(Turns(asked)))))
  {
    hide Turns;
    var asked := c.session.messages + [Message(USER, text)];
    assert asked + [] == asked;
  }

  /** A turn after resuming with the settings `other` gives the session that the uninterrupted
      chat would have. */
  ghost predicate ResumesAlike(w: World, c: State, path: string, other: nat, stamps: nat, text: string) {
    var saved := Obey(w, c, Save(path)).state;
    var resumed := Obey(w, Fresh(w, c.systemPrompt, other, stamps, saved.files), Load(path)).state;
    Obey(w, saved, Say(text)).state.session == Obey(w, resumed, Say(text)).state.session
  }

  /** A session records the sampler settings and a load restores them, but nothing reads them:
      a resumed turn gets the reply for the settings the new process was started with. */
  lemma RecordedSamplerUnread(w: World, c: State, path: string, other: nat, stamps: nat, text: string)
    requires Invariant(w, c) && w.writable(path) && Deterministic(w)
    ensures var saved := Obey(w, c, Save(path)).state;
            var resumed := Obey(w, Fresh(w, c.systemPrompt, other, stamps, saved.files), Load(path)).state;
            var prompt := w.render(Turns(c.session.messages + [Message(USER, text)]));
            && resumed.session.sampler == c.session.sampler
            && (ResumesAlike(w, c, path, other, stamps, text) <==>
                w.generate(c.sampler, 0, "", prompt) == w.generate(other, 0, "", prompt))
  {
    hide Obey, Seed, Turns, Answer;
    var saved := Obey(w, c, Save(path)).state;
    var resumed := Obey(w, Fresh(w, c.systemPrompt, other, stamps, saved.files), Load(path)).state;
    SaveThenLoad(w, c, path, Fresh(w, c.systemPrompt, other, stamps, saved.files));
    var asked := c.session.messages + [Message(USER, text)];
    var prompt := w.render(Turns(asked));
    SaySession(w, saved, text);
    SaySession(w, resumed, text);
    assert w.generate(c.sampler, |c.log|, "", prompt) == w.generate(c.sampler, 0, "", prompt);
    SameAnswer(asked, w.generate(c.sampler, 0, "", prompt), w.generate(other, 0, "", prompt));
  }

  /** A model whose reply names its sampler settings. */
  const ECHO := World(
    (sampler: nat, _: nat, _: string, _: string) => Some(Decimal(sampler)),
    (_: seq<Message>) => "", (path: string) => path, (_: string) => true, (_: string) => true, "")

  lemma EchoTellsApart(sampler: nat, other: nat)
    requires sampler != other
    ensures var c := Fresh(ECHO, None, sampler, 0, map[]);
            Deterministic(ECHO) && Invariant(ECHO, c) && !ResumesAlike(ECHO, c, "", other, 0, "")
  {
    hide ResumesAlike, Invariant, Decimal, Turns;
    var c := Fresh(ECHO, None, sampler, 0, map[]);
    FreshOk(ECHO, None, sampler, 0, map[]);
    RecordedSamplerUnread(ECHO, c, "", other, 0, "");
    if Decimal(sampler) == Decimal(other) {
      DecimalInjective(sampler, other);
    }
  }

  /** So a resumed chat is sure to go on as the uninterrupted one, whatever the deterministic
      model and the session, exactly when the new process is started with the same settings. */
  lemma SamplerMustMatchIff(sampler: nat, other: nat)
    ensures other == sampler <==>
            forall w: World, c: State, path: string, stamps: nat, text: string ::
              Deterministic(w) && Invariant(w, c) && w.writable(path) && c.sampler == sampler ==>
                ResumesAlike(w, c, path, other, stamps, text)
  {
    hide ResumesAlike, Invariant, Deterministic;
    if other == sampler {
      forall w: World, c: State, path: string, stamps: nat, text: string
        | Deterministic(w) && Invariant(w, c) && w.writable(path) && c.sampler == sampler
        ensures ResumesAlike(w, c, path, other, stamps, text)
      {
        RecordedSamplerUnread(w, c, path, other, stamps, text);
      }
    } else {
      EchoTellsApart(sampler, other);
      assert ECHO.writable("") && Fresh(ECHO, None, sampler, 0, map[]).sampler == sampler;
    }
  }

  // ---------------------------------------------------------------- which system prompt is in force

  /** The transcript opens with the current system prompt. */
  predicate HeadIsCurrent(c: State) {
    Head(c.session.messages) == c.systemPrompt
  }

  /** `/system` and `/reset` re-establish the current system prompt, a load replaces the
      transcript's but not the current one, and nothing else touches either: so the two agree
      after a command exactly in these cases. */
  lemma HeadIsCurrentIff(w: World, c: State, cmd: Command)
    requires Invariant(w, c) && Obey(w, c, cmd).Running?
    ensures HeadIsCurrent(Obey(w, c, cmd).state) <==>
            match cmd
            case ResetAll => true
            case System(_) => true
            case Load(path) =>
              if LoadSession(w, c.files, path).Some?
              then Head(LoadSession(w, c.files, path).value.messages) == c.systemPrompt else HeadIsCurrent(c)
            case _ => HeadIsCurrent(c)
  {
    match cmd {
      case ResetAll => SeedWellFormed([], c.systemPrompt);
      case System(text) => SeedWellFormed(c.session.messages, Some(text));
      case Say(text) =>
        var prompt := w.render(Turns(c.session.messages + [Message(USER, text)]));
        var reply := w.generate(c.sampler, |c.log|, "", prompt);
        if reply.Some? {
          TurnWellFormed(c.session.messages, text, reply.value);
        }
      case _ =>
    }
  }

  /** The two really come apart: after setting `A`, saving, setting `B` and loading, the
      transcript opens with `A` while `B` is current, and a reset brings `B` back. */
  lemma LoadKeepsCurrentPrompt(w: World, sampler: nat, stamps: nat, path: string)
    requires w.writable(path)
    ensures var c := Fresh(w, None, sampler, stamps, map[]);
            var loaded := RunCommands(w, c, [System("A"), Save(path), System("B"), Load(path)]);
            var reset := RunCommands(w, c, [System("A"), Save(path), System("B"), Load(path), ResetAll]);
            && loaded.Running?
            && Head(loaded.state.session.messages) == Some("A") && loaded.state.systemPrompt == Some("B")
            && reset.Running? && Head(reset.state.session.messages) == Some("B")
  {
    var c := Fresh(w, None, sampler, stamps, map[]);
    var a := Obey(w, c, System("A")).state;
    var s := Obey(w, a, Save(path)).state;
    var b := Obey(w, s, System("B")).state;
    var l := Obey(w, b, Load(path)).state;
    var r := Obey(w, l, ResetAll).state;
    var tail: seq<Command> := [];
    Unroll(w, l, ResetAll, tail);
    Unroll(w, b, Load(path), tail);
    Unroll(w, s, System("B"), [Load(path)]);
    Unroll(w, a, Save(path), [System("B"), Load(path)]);
    Unroll(w, c, System("A"), [Save(path), System("B"), Load(path)]);
    Unroll(w, b, Load(path), [ResetAll]);
    Unroll(w, s, System("B"), [Load(path), ResetAll]);
    Unroll(w, a, Save(path), [System("B"), Load(path), ResetAll]);
    Unroll(w, c, System("A"), [Save(path), System("B"), Load(path), ResetAll]);
  }

  lemma Unroll(w: World, c: State, cmd: Command, rest: seq<Command>)
    ensures RunCommands(w, c, [cmd] + rest) ==
            if Obey(w, c, cmd).Ended? then Obey(w, c, cmd) else RunCommands(w, Obey(w, c, cmd).state, rest)
    ensures RunCommands(w, c, []) == Running(c)
  {
    assert ([cmd] + rest)[1..] == rest;
  }
}
