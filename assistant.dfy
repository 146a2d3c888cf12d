/** The chat log of the coding assistant (`handleSubmit`,
    AICodeAssistant.jsx:83-121). The request to the language model is not
    modelled: its outcome, a reply or a failure, is a parameter. */
module AssistantChat {
  import opened Base

  datatype Role = User | Assistant

  datatype Message = Message(role: Role, content: string)

  const ErrorReply := "Sorry, I encountered an error. Please make sure you have set up the VITE_GEMINI_API_KEY in your .env file and try again."

  /** The characters `String.prototype.trim` removes: white space and line
      terminators (sections 12.2 and 12.3 of ECMAScript). */
  predicate IsTrimmed(c: char) {
    || c == '\U{0009}' || c == '\U{000B}' || c == '\U{000C}' || c == '\U{FEFF}'
    || c == '\U{0020}' || c == '\U{00A0}' || c == '\U{1680}' || ('\U{2000}' <= c <= '\U{200A}')
    || c == '\U{202F}' || c == '\U{205F}' || c == '\U{3000}'
    || c == '\U{000A}' || c == '\U{000D}' || c == '\U{2028}' || c == '\U{2029}'
  }

  /** Nothing but white space. */
  predicate IsBlank(s: string) {
    forall i :: 0 <= i < |s| ==> IsTrimmed(s[i])
  }

  /** Drops the white space at the front: what is left is a suffix, all that
      was dropped is white space, and what is left does not start with it. */
  function TrimStart(s: string): (r: string)
    ensures |r| <= |s| && r == s[|s| - |r|..]
    ensures forall k :: 0 <= k < |s| - |r| ==> IsTrimmed(s[k])
    ensures r == [] || !IsTrimmed(r[0])
  {
    if s != [] && IsTrimmed(s[0]) then TrimStart(s[1..]) else s
  }

  /** Drops the white space at the back, symmetrically. */
  function TrimEnd(s: string): (r: string)
    ensures |r| <= |s| && r == s[..|r|]
    ensures forall k :: |r| <= k < |s| ==> IsTrimmed(s[k])
    ensures r == [] || !IsTrimmed(r[|r| - 1])
  {
    if s != [] && IsTrimmed(s[|s| - 1]) then TrimEnd(s[..|s| - 1]) else s
  }

  /** `String.prototype.trim` (section 22.1.3.32 of ECMAScript): the result
      neither starts nor ends with white space. */
  function Trim(s: string): (r: string)
    ensures |r| <= |s|
    ensures r == [] || (!IsTrimmed(r[0]) && !IsTrimmed(r[|r| - 1]))
  {
    TrimEnd(TrimStart(s))
  }

  /** `!inputMessage.trim()` holds exactly for input made of nothing but
      white space, the empty input included. */
  lemma TrimEmptyIffBlank(s: string)
    ensures Trim(s) == "" <==> IsBlank(s)
  {
  }

  /** The assistant's message for a request outcome. */
  function ReplyMessage(reply: Option<string>): Message {
    Message(Assistant, if reply.Some? then reply.value else ErrorReply)
  }

  class Chat {
    var messages: seq<Message>
    var inputMessage: string
    var isLoading: bool

    constructor ()
      ensures messages == [] && inputMessage == "" && !isLoading
    {
      messages, inputMessage, isLoading := [], "", false;
    }

    /** The text input (lines 166-172). */
    method Type(text: string)
      modifies this
      ensures inputMessage == text && messages == old(messages) && isLoading == old(isLoading)
    {
      inputMessage := text;
    }

    /** `handleSubmit` up to the request (lines 83-91), from a form whose
        submit button is disabled while a request is pending (line 175).
        Blank input does nothing; otherwise the input goes into the log as
        the user's message, the field is cleared and loading starts. The
        question asked is returned. */
    method Submit() returns (question: Option<string>)
      requires !isLoading
      modifies this
      ensures IsBlank(old(inputMessage)) ==> question == None && messages == old(messages) && inputMessage == old(inputMessage) && !isLoading
      ensures !IsBlank(old(inputMessage)) ==> && question == Some(old(inputMessage))
                                              && messages == old(messages) + [Message(User, old(inputMessage))]
                                              && inputMessage == "" && isLoading
    {
      TrimEmptyIffBlank(inputMessage);
      if Trim(inputMessage) == "" {
        return None;
      }
      question := Some(inputMessage);
      messages := messages + [Message(User, inputMessage)];
      inputMessage := "";
      isLoading := true;
    }

    /** The rest of `handleSubmit` (lines 93-120): exactly one assistant
        message is appended, the reply or the fixed error text, and loading
        ends. What was typed meanwhile is kept. */
    method Respond(reply: Option<string>)
      requires isLoading
      modifies this
      ensures messages == old(messages) + [ReplyMessage(reply)]
      ensures !isLoading && inputMessage == old(inputMessage)
    {
      messages := messages + [ReplyMessage(reply)];
      isLoading := false;
    }
  }
}
