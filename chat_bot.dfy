/**
 * The chat bot service as it stands: an echo of the user's message with the topic and level,
 * and a streaming variant that hands the same reply out word by word.
 */
module ChatBot {
  import opened Wrappers
  import opened Text
  import opened Chat

  datatype ChatRequest = ChatRequest(message: string, topic: string, cefrLevel: Option<string>, history: seq<(Author, string)>)

  const NoTopicReply := "Please select a topic to start our conversation!"
  const LevelTag := ", CEFR: "

  /** How every echo starts: the message in quotes, then the topic. */
  function EchoHead(req: ChatRequest): string {
    "You said: \"" + req.message + "\" (Topic: " + req.topic
  }

  /**
   * `sendChatMessage`: without a topic, a request to pick one; otherwise the echo, which names
   * the level exactly when one is given, and closes with a parenthesis.
   */
  function SendChatMessage(req: ChatRequest): (r: string)
    ensures req.topic == "" ==> r == NoTopicReply
    ensures req.topic != "" ==> StartsWith(r, EchoHead(req)) && |r| > |EchoHead(req)| && r[|r| - 1] == ')'
    ensures req.topic != "" ==> (StartsWith(r[|EchoHead(req)|..], LevelTag) <==> Truthy(req.cefrLevel))
    ensures req.topic != "" && Truthy(req.cefrLevel) ==> r[|EchoHead(req)| + |LevelTag|..|r| - 1] == req.cefrLevel.value
    ensures req.topic != "" && !Truthy(req.cefrLevel) ==> |r| == |EchoHead(req)| + 1
  {
    if req.topic == "" then NoTopicReply
    else
      var head := EchoHead(req);
      var level := if Truthy(req.cefrLevel) then LevelTag + req.cefrLevel.value else "";
      var r := head + level + ")";
      assert r[..|head|] == head && r[|head|..] == level + ")";
      assert Truthy(req.cefrLevel) ==> (level + ")")[..|LevelTag|] == LevelTag;
      r
  }

  /** The reply does not depend on the conversation history sent with the request. */
  lemma ReplyIgnoresHistory(req: ChatRequest, history: seq<(Author, string)>)
    ensures SendChatMessage(req.(history := history)) == SendChatMessage(req)
  {
  }

  /** The i-th streamed chunk: the i-th word, followed by a space unless it is the last. */
  function Chunk(words: seq<string>, i: nat): string
    requires i < |words|
  {
    words[i] + (if i < |words| - 1 then " " else "")
  }

  /** What a listener that appends every chunk it receives ends up with. */
  function Concat(chunks: seq<string>): string {
    if |chunks| == 0 then "" else Concat(chunks[..|chunks| - 1]) + chunks[|chunks| - 1]
  }

  /** Joining from index `i` on is the chunk emitted for `i` followed by the join of the rest. */
  lemma JoinStep(words: seq<string>, i: nat)
    requires i < |words|
    ensures Join(words[i..], " ") == Chunk(words, i) + Join(words[i + 1..], " ")
  {
    assert words[i..][1..] == words[i + 1..];
    if i == |words| - 1 {
      assert words[i + 1..] == [];
    }
  }

  /** Receiving one more chunk extends what the listener holds by that chunk. */
  lemma ConcatStep(chunks: seq<string>, chunk: string, rest: string)
    ensures Concat(chunks + [chunk]) + rest == Concat(chunks) + (chunk + rest)
  {
    assert (chunks + [chunk])[..|chunks|] == chunks;
  }

  /**
   * `sendChatMessageStream`: the reply is split at spaces and the pieces are emitted in order,
   * each but the last with its space put back; the emitted chunks are returned in order.
   */
  method SendChatMessageStream(req: ChatRequest) returns (chunks: seq<string>)
    ensures var words := Split(SendChatMessage(req), ' ');
            |chunks| == |words| &&
            (forall i :: 0 <= i < |chunks| - 1 ==> chunks[i] == words[i] + " ") &&
            chunks[|chunks| - 1] == words[|words| - 1]
    ensures Concat(chunks) == SendChatMessage(req)
  {
    var fullResponse := SendChatMessage(req);
    var words := Split(fullResponse, ' ');
    chunks := EmitWords(words);
    assert Chunk(words, |words| - 1) == words[|words| - 1] + "" == words[|words| - 1];
    JoinSplit(fullResponse, ' ');
  }

  /** The loop of `sendChatMessageStream`: one chunk per word, the space put back after all but the last. */
  method EmitWords(words: seq<string>) returns (chunks: seq<string>)
    ensures |chunks| == |words|
    ensures forall k :: 0 <= k < |chunks| ==> chunks[k] == Chunk(words, k)
    ensures Concat(chunks) == Join(words, " ")
  {
    chunks := [];
    for i := 0 to |words|
      invariant |chunks| == i
      invariant forall k :: 0 <= k < i ==> chunks[k] == Chunk(words, k)
      invariant Concat(chunks) + Join(words[i..], " ") == Join(words, " ")
    {
      var chunk := words[i] + (if i < |words| - 1 then " " else "");
      JoinStep(words, i);
      ConcatStep(chunks, chunk, Join(words[i + 1..], " "));
      chunks := chunks + [chunk];
    }
  }
}
