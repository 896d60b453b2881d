/**
  The relay's store: a list of events in memory and a file that is read again for every request
  (src/relay.cc:22-107, src/database.cc:13-131). Publishing an event appends the whole list in
  memory to the file, so the file repeats events; `Abstract` is the relay that just keeps one list.
 */
module Relay {
  import opened Options

  datatype Event = Event(id: string, pubkey: string, createdAt: int, kind: int, tags: seq<seq<string>>,
                         content: string, sig: string)

  /**
    A message, by what the relay gets out of it. An EVENT that cannot be parsed to the end leaves the
    event as far as it was read, and the relay goes on with that; likewise a REQ.
   */
  datatype Message = Publish(event: Event) | Request(requestId: string, authors: seq<string>) | Unsupported

  datatype Response = EventFor(requestId: string, event: Event) | Eose(requestId: string) | Notice(text: string)

  /** A message, or the end of the process and a new start. */
  datatype Input = Receive(message: Message) | Restart

  // ---------- Queries ----------

  /** The events whose pubkey is one of the authors. */
  function Matching(events: seq<Event>, authors: seq<string>): seq<Event> {
    if events == [] then []
    else
      var n := |events| - 1;
      Matching(events[..n], authors) + if events[n].pubkey in authors then [events[n]] else []
  }

  /** The event at the first position whose pubkey is one of the authors. */
  ghost predicate IsFirstMatch(events: seq<Event>, authors: seq<string>, i: nat) {
    && i < |events| && events[i].pubkey in authors
    && forall j | 0 <= j < i :: events[j].pubkey !in authors
  }

  /** The different events, in the order of their first occurrences. */
  function Distinct(events: seq<Event>): (r: seq<Event>)
    ensures forall e | e in events :: e in r
    ensures forall e | e in r :: e in events
  {
    if events == [] then []
    else
      var n := |events| - 1;
      Distinct(events[..n]) + if events[n] in events[..n] then [] else [events[n]]
  }

  // ---------- The relay ----------

  datatype State = State(database: seq<Event>, file: Option<seq<Event>>)

  /** A file that is missing or cannot be parsed reads as an empty list. */
  function Read(file: Option<seq<Event>>): seq<Event> {
    match file
    case None => []
    case Some(events) => events
  }

  function Answer(found: seq<Event>, requestId: string): Response {
    if found == [] then Eose(requestId) else EventFor(requestId, found[0])
  }

  function Next(s: State, input: Input): State {
    match input
    case Receive(Publish(ev)) =>
      State(s.database + [ev], Some(Read(s.file) + (s.database + [ev])))
    case Receive(_) => s
    case Restart => s.(database := Read(s.file))
  }

  function Respond(s: State, input: Input): Option<Response> {
    match input
    case Receive(Publish(ev)) => Some(Eose(ev.id))
    case Receive(Request(id, authors)) => Some(Answer(Matching(Read(s.file), authors), id))
    case Receive(Unsupported) => Some(Notice("Error"))
    case Restart => None
  }

  function Run(s: State, inputs: seq<Input>): seq<Option<Response>>
    decreases |inputs|
  {
    if inputs == [] then [] else [Respond(s, inputs[0])] + Run(Next(s, inputs[0]), inputs[1..])
  }

  function After(s: State, inputs: seq<Input>): State
    decreases |inputs|
  {
    if inputs == [] then s else After(Next(s, inputs[0]), inputs[1..])
  }

  // ---------- One list ----------

  /** The simple relay: every published event is added once, and restarts change nothing. */
  function AbstractNext(log: seq<Event>, input: Input): seq<Event> {
    if input.Receive? && input.message.Publish? then log + [input.message.event] else log
  }

  function AbstractRespond(log: seq<Event>, input: Input): Option<Response> {
    match input
    case Receive(Publish(ev)) => Some(Eose(ev.id))
    case Receive(Request(id, authors)) => Some(Answer(Matching(log, authors), id))
    case Receive(Unsupported) => Some(Notice("Error"))
    case Restart => None
  }

  function AbstractRun(log: seq<Event>, inputs: seq<Input>): seq<Option<Response>>
    decreases |inputs|
  {
    if inputs == [] then [] else [AbstractRespond(log, inputs[0])] + AbstractRun(AbstractNext(log, inputs[0]), inputs[1..])
  }

  function AbstractAfter(log: seq<Event>, inputs: seq<Input>): seq<Event>
    decreases |inputs|
  {
    if inputs == [] then log else AbstractAfter(AbstractNext(log, inputs[0]), inputs[1..])
  }

  // ---------- First occurrences ----------

  lemma DistinctSnoc(s: seq<Event>, e: Event)
    ensures Distinct(s + [e]) == if e in s then Distinct(s) else Distinct(s) + [e]
  {
    assert (s + [e])[..|s|] == s;
  }

  /** Repeating what is there already adds nothing. */
  lemma {:induction false} DistinctRepeat(a: seq<Event>, b: seq<Event>)
    requires forall e | e in b :: e in a
    ensures Distinct(a + b) == Distinct(a)
  {
    if b == [] {
      assert a + b == a;
    } else {
      var n := |b| - 1;
      DistinctRepeat(a, b[..n]);
      assert a + b == (a + b[..n]) + [b[n]];
      DistinctSnoc(a + b[..n], b[n]);
      assert b[n] in a;
    }
  }

  lemma SameElements(a: seq<Event>, b: seq<Event>)
    requires Distinct(a) == Distinct(b)
    ensures forall e :: e in a <==> e in b
  {
    hide Distinct;
    forall e ensures e in a <==> e in b {
      assert e in a <==> e in Distinct(a);
      assert e in b <==> e in Distinct(b);
    }
  }

  /** Appending the whole list, and a new event, to a file with the same first occurrences. */
  lemma AppendKeeps(file: seq<Event>, database: seq<Event>, log: seq<Event>, ev: Event)
    requires Distinct(file) == Distinct(database) == Distinct(log)
    ensures Distinct(file + (database + [ev])) == Distinct(database + [ev]) == Distinct(log + [ev])
  {
    hide Distinct;
    SameElements(file, database);
    SameElements(log, database);
    DistinctRepeat(file, database);
    assert file + (database + [ev]) == (file + database) + [ev];
    DistinctSnoc(file + database, ev);
    DistinctSnoc(database, ev);
    DistinctSnoc(log, ev);
    assert ev in file + database <==> ev in database;
  }

  lemma {:induction false} MatchingMember(s: seq<Event>, authors: seq<string>, e: Event)
    ensures e in Matching(s, authors) <==> e in s && e.pubkey in authors
  {
    if s != [] {
      var n := |s| - 1;
      MatchingMember(s[..n], authors, e);
      assert s == s[..n] + [s[n]];
    }
  }

  /** Choosing and removing repetitions commute. */
  lemma {:induction false} MatchingDistinct(s: seq<Event>, authors: seq<string>)
    ensures Distinct(Matching(s, authors)) == Matching(Distinct(s), authors)
  {
    hide Matching, Distinct;
    if s == [] {
      NothingMatches(authors);
    } else {
      var n := |s| - 1;
      var front, e := s[..n], s[n];
      assert s == front + [e];
      MatchingDistinct(front, authors);
      MatchingMember(front, authors, e);
      MatchingSnoc(front, authors, e);
      DistinctSnoc(front, e);
      DistinctSnoc(Matching(front, authors), e);
      MatchingSnoc(Distinct(front), authors, e);
    }
  }

  lemma NothingMatches(authors: seq<string>)
    ensures Matching([], authors) == [] && Distinct([]) == []
  {}

  lemma MatchingSnoc(s: seq<Event>, authors: seq<string>, e: Event)
    ensures Matching(s + [e], authors) == if e.pubkey in authors then Matching(s, authors) + [e] else Matching(s, authors)
  {
    assert (s + [e])[..|s|] == s;
  }

  /** Removing repetitions keeps the first element. */
  lemma {:induction false} DistinctFirst(s: seq<Event>)
    ensures s == [] <==> Distinct(s) == []
    ensures s != [] ==> Distinct(s)[0] == s[0]
  {
    if |s| > 1 {
      DistinctFirst(s[..|s| - 1]);
    }
  }

  /** So the answer depends on the first occurrences only. */
  lemma SameAnswer(a: seq<Event>, b: seq<Event>, authors: seq<string>, id: string)
    requires Distinct(a) == Distinct(b)
    ensures Answer(Matching(a, authors), id) == Answer(Matching(b, authors), id)
  {
    hide Distinct, Matching;
    MatchingDistinct(a, authors);
    MatchingDistinct(b, authors);
    DistinctFirst(Matching(a, authors));
    DistinctFirst(Matching(b, authors));
  }

  // ---------- Every run ----------

  /** Memory, file and log have the same first occurrences. */
  ghost predicate Inv(s: State, log: seq<Event>) {
    Distinct(Read(s.file)) == Distinct(s.database) == Distinct(log)
  }

  lemma StepRefines(s: State, log: seq<Event>, input: Input)
    requires Inv(s, log)
    ensures Inv(Next(s, input), AbstractNext(log, input))
    ensures Respond(s, input) == AbstractRespond(log, input)
  {
    hide Distinct, Matching;
    match input
    case Receive(Publish(ev)) => AppendKeeps(Read(s.file), s.database, log, ev);
    case Receive(Request(id, authors)) => SameAnswer(Read(s.file), log, authors, id);
    case Receive(Unsupported) =>
    case Restart =>
  }

  /** Over every run of messages and restarts, the answers are those of the relay with one list. */
  lemma {:induction false} RunRefines(s: State, log: seq<Event>, inputs: seq<Input>)
    requires Inv(s, log)
    ensures Run(s, inputs) == AbstractRun(log, inputs)
    ensures Inv(After(s, inputs), AbstractAfter(log, inputs))
    decreases |inputs|
  {
    hide Inv, Next, Respond, AbstractNext, AbstractRespond;
    if inputs != [] {
      StepRefines(s, log, inputs[0]);
      RunRefines(Next(s, inputs[0]), AbstractNext(log, inputs[0]), inputs[1..]);
    }
  }

  /** From the start on any file: the answers, and the order of first occurrences. */
  lemma RelayRefines(file: Option<seq<Event>>, inputs: seq<Input>)
    ensures Run(State(Read(file), file), inputs) == AbstractRun(Read(file), inputs)
    ensures var s := After(State(Read(file), file), inputs);
            Distinct(Read(s.file)) == Distinct(s.database) == Distinct(AbstractAfter(Read(file), inputs))
  {
    hide Run, AbstractRun, After, AbstractAfter, Distinct;
    RunRefines(State(Read(file), file), Read(file), inputs);
  }

  lemma {:induction false} FirstMatching(events: seq<Event>, authors: seq<string>)
    ensures Matching(events, authors) == [] <==> forall i | 0 <= i < |events| :: events[i].pubkey !in authors
    ensures Matching(events, authors) != [] ==>
              exists i: nat :: IsFirstMatch(events, authors, i) && Matching(events, authors)[0] == events[i]
  {
    hide Matching;
    NothingMatches(authors);
    if events != [] {
      var n := |events| - 1;
      var front, rest := events[..n], Matching(events[..n], authors);
      assert events == front + [events[n]];
      MatchingSnoc(front, authors, events[n]);
      FirstMatching(front, authors);
      if rest != [] {
        var i: nat :| IsFirstMatch(front, authors, i) && rest[0] == front[i];
        assert IsFirstMatch(events, authors, i) && events[i] == front[i];
      } else {
        assert forall i | 0 <= i < n :: events[i] == front[i];
        if events[n].pubkey in authors {
          assert IsFirstMatch(events, authors, n);
        }
      }
    }
  }

  /**
    A request is answered with the first event in memory whose pubkey is in the filter, and with EOSE
    iff there is none, although the query runs over the file.
   */
  lemma AnswersFromMemory(file: Option<seq<Event>>, inputs: seq<Input>, id: string, authors: seq<string>)
    ensures var s := After(State(Read(file), file), inputs);
            var r := Respond(s, Receive(Request(id, authors)));
            if forall i | 0 <= i < |s.database| :: s.database[i].pubkey !in authors then r == Some(Eose(id))
            else exists i: nat :: IsFirstMatch(s.database, authors, i) && r == Some(EventFor(id, s.database[i]))
  {
    hide After, Distinct, Matching;
    RelayRefines(file, inputs);
    var s := After(State(Read(file), file), inputs);
    SameAnswer(Read(s.file), s.database, authors, id);
    FirstMatching(s.database, authors);
  }

  // ---------- The size of the file ----------

  /** Without a restart, `n` published events on an empty store leave n(n+1)/2 records in the file. */
  lemma {:induction false} FileGrowth(s: State, inputs: seq<Input>)
    requires 2 * |Read(s.file)| == |s.database| * (|s.database| + 1)
    requires forall i | 0 <= i < |inputs| :: inputs[i].Receive?
    ensures var t := After(s, inputs);
            && |t.database| == |s.database| + |AbstractAfter([], inputs)|
            && 2 * |Read(t.file)| == |t.database| * (|t.database| + 1)
    decreases |inputs|
  {
    if inputs != [] {
      FileGrowth(Next(s, inputs[0]), inputs[1..]);
      LogLength([], inputs);
      LogLength(AbstractNext([], inputs[0]), inputs[1..]);
    }
  }

  lemma {:induction false} LogLength(log: seq<Event>, inputs: seq<Input>)
    ensures |AbstractAfter(log, inputs)| == |log| + |AbstractAfter([], inputs)|
    decreases |inputs|
  {
    if inputs != [] {
      LogLength(AbstractNext(log, inputs[0]), inputs[1..]);
      LogLength(AbstractNext([], inputs[0]), inputs[1..]);
    }
  }

  // ---------- The relay's methods ----------

  class Disk {
    var file: Option<seq<Event>>   // database.json

    constructor ()
      ensures file == None
    {
      file := None;
    }

    /** database::append */
    method Append(events: seq<Event>)
      modifies this
      ensures file == Some(old(Read(file)) + events)
    {
      var database := Read(file);
      for idx := 0 to |events|
        invariant database == Read(file) + events[..idx]
      {
        database := database + [events[idx]];
      }
      assert events[..|events|] == events;
      file := Some(database);
    }

    /** database::request */
    method Query(authors: seq<string>) returns (events: seq<Event>)
      ensures events == Matching(Read(file), authors)
    {
      var database := Read(file);
      events := [];
      for d := 0 to |database|
        invariant events == Matching(database[..d], authors)
      {
        assert database[..d + 1][..d] == database[..d];
        var a := 0;
        while a < |authors|
          invariant 0 <= a <= |authors|
          invariant forall k | 0 <= k < a :: database[d].pubkey != authors[k]
        {
          if database[d].pubkey == authors[a] {
            events := events + [database[d]];
            break;
          }
          a := a + 1;
        }
        assert a == |authors| <==> database[d].pubkey !in authors;
      }
      assert database[..|database|] == database;
    }
  }

  class Server {
    const disk: Disk
    var database: seq<Event>

    constructor (disk: Disk)
      ensures this.disk == disk && Now() == State(Read(disk.file), disk.file)
    {
      this.disk := disk;
      database := Read(disk.file);
    }

    function Now(): State
      reads this, disk
    {
      State(database, disk.file)
    }

    /** make_response */
    method MakeResponse(message: Message) returns (response: Response)
      modifies this, disk
      ensures Now() == Next(old(Now()), Receive(message))
      ensures Some(response) == Respond(old(Now()), Receive(message))
      ensures message.Publish? ==>
                response == Eose(message.event.id) && database == old(database) + [message.event]
                && disk.file == Some(old(Read(disk.file)) + database)
      ensures message.Unsupported? ==> response == Notice("Error") && database == old(database) && disk.file == old(disk.file)
    {
      match message
      case Publish(ev) =>
        response := Eose(ev.id);
        database := database + [ev];
        disk.Append(database);
      case Request(requestId, authors) =>
        var events := disk.Query(authors);
        response := if |events| > 0 then EventFor(requestId, events[0]) else Eose(requestId);
      case Unsupported =>
        response := Notice("Error");
    }
  }
}
