/**
 * The assistant chat (components/ChatInterface.tsx): the transcript, the
 * input box and the typing flag, and `handleSend`, which appends the user's
 * message and an empty model reply that the streamed chunks fill in.
 */
module ChatInterface {
  import opened Wrappers
  import opened Strings
  import opened GeminiService

  /** One line of the transcript. */
  datatype Message = Message(role: Role, text: string)

  const Greeting := "Selam Şafak Esnafım! Tezgahta durumlar nasıl? Dükkan yönetimi, yeni ürünler veya müşteriler hakkında bir sorun varsa buradayım."
  const Apology := "Kusura bakma esnafım, bir an dalmışım. Ne diyorduk? (Bir hata oluştu)"
  /** The labels of the conversation starter buttons. */
  const Starters := ["Yeni ürün önerisi", "Müşteri çekme fikirleri", "Dükkan düzeni", "Bayram hazırlığı"]

  /** The history a send passes to the chat service: each message as its role and a single text part. */
  function History(messages: seq<Message>): (r: seq<HistoryEntry>)
    ensures |r| == |messages|
    ensures forall i :: 0 <= i < |messages| ==> r[i] == HistoryEntry(RoleName(messages[i].role), [messages[i].text])
  {
    seq(|messages|, i requires 0 <= i < |messages| => HistoryEntry(RoleName(messages[i].role), [messages[i].text]))
  }

  /** What the chat endpoint receives keeps every message's role and text, in order. */
  lemma ContentsOfHistory(messages: seq<Message>)
    ensures |ChatContents(History(messages))| == |messages|
    ensures forall i :: 0 <= i < |messages| ==>
      ChatContents(History(messages))[i] == ApiContent(messages[i].role, [messages[i].text])
  {
    forall i | 0 <= i < |messages|
      ensures ChatContents(History(messages))[i] == ApiContent(messages[i].role, [messages[i].text])
    {
      ApiRoleOfName(messages[i].role);
    }
  }

  /** The transcript after a send that completed: the user's message, then the whole reply. */
  function Answered(prior: seq<Message>, question: string, reply: string): seq<Message> {
    prior + [Message(User, question), Message(Model, reply)]
  }

  class ChatState {
    var messages: seq<Message>
    var input: string
    var isTyping: bool

    /** The opening transcript: the assistant's greeting alone. */
    constructor ()
      ensures messages == [Message(Model, Greeting)] && input == "" && !isTyping
    {
      messages := [Message(Model, Greeting)];
      input := "";
      isTyping := false;
    }

    /** The input box. */
    method EditInput(value: string)
      modifies this
      ensures input == value && messages == old(messages) && isTyping == old(isTyping)
    {
      input := value;
    }

    /** `textToSend || input`: a starter's label wins over the box unless it is empty. */
    function MessageText(textToSend: Option<string>): (r: string)
      reads this
      ensures Truthy(textToSend) ==> r == textToSend.value
      ensures !Truthy(textToSend) ==> r == input
    {
      if Truthy(textToSend) then textToSend.value else input
    }

    /** The send guard: blank text (after trimming), or a reply still streaming. */
    predicate SendIgnored(textToSend: Option<string>)
      reads this
    {
      Trim(MessageText(textToSend)) == "" || isTyping
    }

    /**
     * The `onChunk` callback of a send, for each call in turn: the chunk is
     * added to the reply so far, which overwrites the text of the last
     * message. `calls` are the calls the stream `chunks` gives rise to.
     * Returns (ghost) the transcript after each call.
     */
    method ReplayChunks(ghost prior: seq<Message>, ghost question: string, calls: seq<string>,
                        ghost chunks: seq<Option<string>>)
      returns (ghost snapshots: seq<seq<Message>>)
      requires messages == Answered(prior, question, "")
      requires calls == DeliveredChunks(chunks)
      modifies this
      ensures messages == Answered(prior, question, StreamText(chunks))
      ensures |snapshots| == |DeliveredChunks(chunks)|
      ensures forall k :: 0 <= k < |snapshots| ==>
        snapshots[k] == Answered(prior, question, Concat(DeliveredChunks(chunks)[..k + 1]))
      ensures input == old(input) && isTyping == old(isTyping)
    {
      var assistantText := "";
      snapshots := [];
      for i := 0 to |calls|
        invariant assistantText == Concat(calls[..i])
        invariant messages == Answered(prior, question, assistantText)
        invariant |snapshots| == i
        invariant forall k :: 0 <= k < i ==> snapshots[k] == Answered(prior, question, Concat(calls[..k + 1]))
        invariant input == old(input) && isTyping == old(isTyping)
      {
        assert calls[..i + 1][..i] == calls[..i];
        assistantText := assistantText + calls[i];
        messages := messages[|messages| - 1 := messages[|messages| - 1].(text := assistantText)];
        snapshots := snapshots + [messages];
      }
      assert calls[..|calls|] == calls;
      DeliveredChunksKeepText(chunks);
    }

    /**
     * The part of `handleSend` past its guard: the question and an empty
     * reply are appended, the input is cleared, the stream is replayed on the
     * reply, and the apology follows when the stream rejects.
     */
    method Exchange(question: string, stream: ChatStream)
      returns (history: seq<HistoryEntry>, sent: seq<ApiContent>, ghost snapshots: seq<seq<Message>>)
      modifies this
      ensures history == History(old(messages) + [Message(User, question)])
      ensures sent == ChatContents(history)
      ensures |snapshots| == |DeliveredChunks(stream.chunks)|
      ensures forall k :: 0 <= k < |snapshots| ==>
        snapshots[k] == Answered(old(messages), question, Concat(DeliveredChunks(stream.chunks)[..k + 1]))
      ensures messages == Answered(old(messages), question, StreamText(stream.chunks))
                          + (if stream.fails then [Message(Model, Apology)] else [])
      ensures input == "" && !isTyping
    {
      var prior := messages;
      var userMessage := Message(User, question);
      messages := messages + [userMessage];
      input := "";
      isTyping := true;

      history := History(prior + [userMessage]);
      messages := messages + [Message(Model, "")];
      var contents, calls, completed := StreamChat(history, stream);
      sent := contents;
      snapshots := ReplayChunks(prior, question, calls, stream.chunks);
      if !completed {
        messages := messages + [Message(Model, Apology)];
      }
      isTyping := false;
    }

    /**
     * `handleSend`: nothing happens for blank text or while a reply is
     * streaming; otherwise the exchange runs. Returns the history passed to
     * the service, the contents it sends, and (ghost) the transcript after
     * each chunk call.
     */
    method HandleSend(textToSend: Option<string>, stream: ChatStream)
      returns (history: seq<HistoryEntry>, sent: seq<ApiContent>, ghost snapshots: seq<seq<Message>>)
      modifies this
      ensures old(SendIgnored(textToSend)) ==>
        messages == old(messages) && input == old(input) && isTyping == old(isTyping) && sent == []
      ensures !old(SendIgnored(textToSend)) ==>
        var question := old(MessageText(textToSend));
        && history == History(old(messages) + [Message(User, question)])
        && sent == ChatContents(history)
        && |snapshots| == |DeliveredChunks(stream.chunks)|
        && (forall k :: 0 <= k < |snapshots| ==>
              snapshots[k] == Answered(old(messages), question, Concat(DeliveredChunks(stream.chunks)[..k + 1])))
        && messages == Answered(old(messages), question, StreamText(stream.chunks))
                       + (if stream.fails then [Message(Model, Apology)] else [])
        && input == "" && !isTyping
    {
      var messageText := MessageText(textToSend);
      if Trim(messageText) == "" || isTyping {
        return [], [], [];
      }
      history, sent, snapshots := Exchange(messageText, stream);
    }
  }

  /** No starter label is blank, so a starter is sent whenever no reply is streaming. */
  lemma StartersAreNotBlank(k: nat)
    requires k < |Starters|
    ensures Trim(Starters[k]) != ""
  {
    assert !IsJsWhitespace(Starters[k][0]);
    TrimEmptyIffAllWhitespace(Starters[k]);
  }
}
