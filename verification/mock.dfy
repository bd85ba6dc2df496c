/** The deterministic test executor (internal/executor/mock.go): canned
    replies keyed by command name, a call log that every invocation extends,
    and replay of canned progress chunks into a caller's progress channel. */
module Mock {
  import opened Wrappers
  import opened Executor

  datatype MockResponse = MockResponse(
    err: Option<Error>,
    output: Output,
    progressData: seq<string>,
    usage: Option<Usage>)

  /** `responses == None` is a nil map. */
  datatype MockExecutor = MockExecutor(responses: Option<map<string, MockResponse>>, callLog: seq<Call>)

  /** A progress channel: what has been sent on it, in order, and whether it is closed. */
  datatype Channel = Channel(sent: seq<string>, closed: bool)

  datatype Step = Step(mock: MockExecutor, sink: Option<Channel>, reply: Reply)

  predicate Configured(responses: Option<map<string, MockResponse>>, name: string) {
    responses.Some? && name in responses.value
  }

  function NotConfigured(name: string): Error {
    Failure("no mock response configured for: " + name)
  }

  /** The reply the mock gives to a call of `name`, whatever the call's position. */
  function MockReply(responses: Option<map<string, MockResponse>>, name: string): (r: Reply)
    ensures !Configured(responses, name) ==>
      r == Reply(NoOutput, None, Some(NotConfigured(name)))
    ensures Configured(responses, name) ==>
      var resp := responses.value[name];
      r == Reply(resp.output, resp.usage, resp.err)
  {
    if responses.None? then Reply(NoOutput, None, Some(NotConfigured(name)))
    else if name !in responses.value then Reply(NoOutput, None, Some(NotConfigured(name)))
    else
      var resp := responses.value[name];
      Reply(resp.output, resp.usage, resp.err)
  }

  /** `ExecuteWithProgress` as written: the call is logged first; a nil map
      or an unknown name fails before the channel is touched; otherwise the
      canned chunks are sent in order, the channel is closed, and the canned
      reply returned. Sending on or closing a closed channel panics in Go,
      hence the precondition. */
  function ExecuteWithProgress(m: MockExecutor, sink: Option<Channel>, name: string, args: seq<string>): (r: Step)
    requires sink.Some? ==> !sink.value.closed
    ensures r.mock.responses == m.responses
    ensures r.mock.callLog == m.callLog + [Call(name, args)]
    ensures !Configured(m.responses, name) ==>
      r.reply.err == Some(NotConfigured(name)) && r.reply.output == NoOutput && r.reply.usage.None?
      && r.sink == sink
    ensures Configured(m.responses, name) ==>
      var resp := m.responses.value[name];
      && r.reply == Reply(resp.output, resp.usage, resp.err)
      && (sink.None? ==> r.sink.None?)
      && (sink.Some? ==> r.sink == Some(Channel(sink.value.sent + resp.progressData, true)))
  {
    var logged := m.(callLog := m.callLog + [Call(name, args)]);
    if !Configured(m.responses, name) then
      Step(logged, sink, MockReply(m.responses, name))
    else
      var resp := m.responses.value[name];
      var sink' := match sink
        case None => None
        case Some(ch) => Some(Channel(ch.sent + resp.progressData, true));
      Step(logged, sink', MockReply(m.responses, name))
  }

  /** `Execute`: `ExecuteWithProgress` with a nil channel. The call is
      recorded and the mocked response for its name is returned. */
  function Execute(m: MockExecutor, name: string, args: seq<string>): (r: (MockExecutor, Reply))
    ensures r.0 == m.(callLog := m.callLog + [Call(name, args)])
    ensures r.1 == MockReply(m.responses, name)
  {
    var s := ExecuteWithProgress(m, None, name, args);
    (s.mock, s.reply)
  }

  /** The mock is an executor in the sense of `Executor.Execute`: its reply
      depends only on the command name, not on the call's position. */
  function AsResponder(responses: Option<map<string, MockResponse>>): Responder {
    (n: nat, c: Call) => MockReply(responses, c.name)
  }

  /** Running the mock is running its responder over its call log. */
  lemma ExecuteMatchesResponder(m: MockExecutor, name: string, args: seq<string>)
    ensures var (m', reply) := Execute(m, name, args);
      Executor.Execute(AsResponder(m.responses), m.callLog, Call(name, args)) == (m'.callLog, reply)
  {
  }

  /** `GetCallCount`: the loop of mock.go over the call log. */
  method GetCallCount(m: MockExecutor, name: string) returns (count: nat)
    ensures count == CountCalls(m.callLog, name)
    ensures count <= |m.callLog|
  {
    count := 0;
    var i := 0;
    while i < |m.callLog|
      invariant 0 <= i <= |m.callLog|
      invariant count == CountCalls(m.callLog[..i], name)
      invariant count <= i
    {
      assert m.callLog[..i + 1][..i] == m.callLog[..i];
      if m.callLog[i].name == name {
        count := count + 1;
      }
      i := i + 1;
    }
    assert m.callLog[..i] == m.callLog;
  }

  /** Every call, failed or not, adds one to the count of its own name and
      leaves every other name's count alone. */
  lemma CountAfterCall(m: MockExecutor, sink: Option<Channel>, name: string, args: seq<string>, other: string)
    requires sink.Some? ==> !sink.value.closed
    ensures CountCalls(ExecuteWithProgress(m, sink, name, args).mock.callLog, other)
         == CountCalls(m.callLog, other) + (if other == name then 1 else 0)
  {
    var log' := ExecuteWithProgress(m, sink, name, args).mock.callLog;
    assert log'[..|log'| - 1] == m.callLog;
  }

  /** The count is the size of the set of log positions holding that name. */
  lemma {:induction false} CountCallsIsCardinality(log: seq<Call>, name: string)
    ensures CountCalls(log, name) == |set i | 0 <= i < |log| && log[i].name == name|
  {
    if |log| > 0 {
      var prefix := log[..|log| - 1];
      CountCallsIsCardinality(prefix, name);
      var before := set i | 0 <= i < |prefix| && prefix[i].name == name;
      var all := set i | 0 <= i < |log| && log[i].name == name;
      if log[|log| - 1].name == name {
        assert all == before + {|log| - 1};
      } else {
        assert all == before;
      }
    }
  }

  /** `Reset`: the log is emptied and the responses kept. */
  function Reset(m: MockExecutor): (r: MockExecutor)
    ensures r.responses == m.responses && |r.callLog| == 0
    ensures forall name :: CountCalls(r.callLog, name) == 0
  {
    m.(callLog := [])
  }

  /** `NewMockExecutor`: an empty (non-nil) map and an empty log, so every
      command is unknown until configured. */
  function NewMockExecutor(): (r: MockExecutor)
    ensures r.responses == Some(map[]) && r.callLog == []
    ensures forall name :: !Configured(r.responses, name)
  {
    MockExecutor(Some(map[]), [])
  }

  /** The closing variant: identical to `ExecuteWithProgress` except that a
      channel, when given, is closed on the two failure paths as well. */
  function ExecuteWithProgressClosing(m: MockExecutor, sink: Option<Channel>, name: string, args: seq<string>): (r: Step)
    requires sink.Some? ==> !sink.value.closed
    ensures r.mock == ExecuteWithProgress(m, sink, name, args).mock
    ensures r.reply == ExecuteWithProgress(m, sink, name, args).reply
    ensures sink.Some? ==> r.sink.Some? && r.sink.value.closed
    ensures sink.None? ==> r.sink.None?
  {
    var s := ExecuteWithProgress(m, sink, name, args);
    if sink.Some? && !Configured(m.responses, name) then s.(sink := Some(sink.value.(closed := true)))
    else s
  }

  /** As written, asking a fresh mock for an unconfigured command with a
      progress channel returns an error and leaves the channel open, so a
      consumer that ranges over the channel until it is closed never stops. */
  lemma UnconfiguredLeavesChannelOpen()
    ensures var s := ExecuteWithProgress(NewMockExecutor(), Some(Channel([], false)), "ffmpeg", []);
      s.reply.err.Some? && s.sink == Some(Channel([], false))
  {
  }
}
