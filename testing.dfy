/**
 * The mocked language model used to test agents: it replays a script of
 * responses, one per call, then answers with a fixed text.
 */
module Testing {
  import opened Oracle

  const DefaultMockResponse := "Mock response"

  /** What the `k`-th call (counting from 0) returns. */
  function ScriptedReply(responses: seq<string>, k: nat): string {
    if k < |responses| then responses[k] else DefaultMockResponse
  }

  /** The replies of the first `n` calls. */
  function Transcript(responses: seq<string>, n: nat): (t: seq<string>)
    ensures |t| == n
  {
    if n == 0 then [] else Transcript(responses, n - 1) + [ScriptedReply(responses, n - 1)]
  }

  /**
   * However many calls are made, the script is replayed once, in order,
   * and every later call gets the default text.
   */
  lemma {:induction false} TranscriptReplaysScript(responses: seq<string>, n: nat)
    ensures n <= |responses| ==> Transcript(responses, n) == responses[..n]
    ensures n > |responses| ==>
      && Transcript(responses, n)[..|responses|] == responses
      && forall k :: |responses| <= k < n ==> Transcript(responses, n)[k] == DefaultMockResponse
  {
    if n > 0 {
      TranscriptReplaysScript(responses, n - 1);
      var t := Transcript(responses, n);
      assert t[..n - 1] == Transcript(responses, n - 1);
      if n <= |responses| {
        assert responses[..n] == responses[..n - 1] + [responses[n - 1]];
      } else if n - 1 == |responses| {
        assert t[..|responses|] == t[..n - 1];
        assert Transcript(responses, n - 1) == responses[..n - 1];
      } else {
        assert t[..|responses|] == t[..n - 1][..|responses|];
      }
    }
  }

  class MockLlm {
    const mockResponses: seq<string>
    /** Position of the next scripted response. */
    var responseIndex: nat
    /** How many times the model was asked. */
    ghost var calls: nat

    /** The cursor has advanced once per call until the script ran out. */
    ghost predicate Valid()
      reads this
    {
      responseIndex == if calls < |mockResponses| then calls else |mockResponses|
    }

    /** `MockLLMAgent.__init__`: the cursor starts at the first response. */
    constructor (mockResponses: seq<string>)
      ensures Valid()
      ensures this.mockResponses == mockResponses && responseIndex == 0 && calls == 0
    {
      this.mockResponses := mockResponses;
      responseIndex := 0;
      calls := 0;
    }

    /**
     * `mock_invoke`: the next scripted response while there is one, and the
     * cursor moves past it; the default text afterwards. The prompt is ignored.
     */
    method MockInvoke(prompt: string) returns (reply: Reply)
      requires Valid()
      modifies this`responseIndex, this`calls
      ensures Valid()
      ensures calls == old(calls) + 1
      ensures reply == Text(ScriptedReply(mockResponses, old(calls)))
      ensures reply == Text(Transcript(mockResponses, calls)[old(calls)])
      ensures old(responseIndex) < |mockResponses| ==> responseIndex == old(responseIndex) + 1
      ensures old(responseIndex) >= |mockResponses| ==> responseIndex == old(responseIndex)
      ensures responseIndex <= |mockResponses|
    {
      var response;
      if responseIndex < |mockResponses| {
        response := mockResponses[responseIndex];
        responseIndex := responseIndex + 1;
      } else {
        response := DefaultMockResponse;
      }
      calls := calls + 1;
      reply := Text(response);
    }
  }
}
