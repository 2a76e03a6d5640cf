/** The chat assistant (components/ChatBot.tsx): the transcript of user and
    model messages, the send guard, the fallback replies, the reset when a
    new transaction list arrives, the voice-transcript join and the
    bold/line-break rewrite of model messages. The chat service's reply is
    an input. */
module ChatBot {
  import opened Types

  const Greeting := "Hello! I've analyzed your new transaction data. Ask me anything about your spending, specific dates, or categories."
  const EmptyReply := "I couldn't process that request."
  const ConnectionError := "Sorry, I encountered an error connecting to the AI."

  // ----- String.prototype.trim

  /** The characters `trim` removes: ECMAScript WhiteSpace (tab, vertical
      tab, form feed, space, no-break space, the byte order mark and the
      Unicode space separators) and LineTerminator (LF, CR, LS, PS). */
  predicate IsJsSpace(c: char)
  {
    || c == '\t' || c == '\n' || c == '\U{000B}' || c == '\U{000C}' || c == '\r' || c == ' '
    || c == '\U{00A0}' || c == '\U{1680}' || ('\U{2000}' <= c <= '\U{200A}')
    || c == '\U{2028}' || c == '\U{2029}' || c == '\U{202F}' || c == '\U{205F}' || c == '\U{3000}'
    || c == '\U{FEFF}'
  }

  predicate AllSpace(s: string)
  {
    forall i :: 0 <= i < |s| ==> IsJsSpace(s[i])
  }

  /** `trimStart`: the longest suffix not starting with white space; what
      it drops is all white space. */
  function TrimStart(s: string): (r: string)
    ensures |r| <= |s| && r == s[|s| - |r|..]
    ensures AllSpace(s[..|s| - |r|])
    ensures r != [] ==> !IsJsSpace(r[0])
  {
    if s != [] && IsJsSpace(s[0]) then
      var r := TrimStart(s[1..]);
      assert s[..|s| - |r|] == [s[0]] + s[1..][..|s[1..]| - |r|];
      r
    else s
  }

  /** `trimEnd`: the longest prefix not ending with white space; what it
      drops is all white space. */
  function TrimEnd(s: string): (r: string)
    ensures |r| <= |s| && r == s[..|r|]
    ensures AllSpace(s[|r|..])
    ensures r != [] ==> !IsJsSpace(r[|r| - 1])
  {
    if s != [] && IsJsSpace(s[|s| - 1]) then
      var r := TrimEnd(s[..|s| - 1]);
      assert s[|r|..] == s[..|s| - 1][|r|..] + [s[|s| - 1]];
      r
    else s
  }

  /** How much white space `trim` cuts off the front of `s`. */
  function LeadingSpace(s: string): (k: nat)
    ensures k <= |s| && AllSpace(s[..k])
  {
    |s| - |TrimStart(s)|
  }

  /** `trim`: the piece of `s` at `LeadingSpace(s)` with only white space
      around it, itself neither starting nor ending with white space. */
  function Trim(s: string): (r: string)
    ensures LeadingSpace(s) + |r| <= |s|
    ensures r == s[LeadingSpace(s)..LeadingSpace(s) + |r|]
    ensures AllSpace(s[LeadingSpace(s) + |r|..])
    ensures r != [] ==> !IsJsSpace(r[0]) && !IsJsSpace(r[|r| - 1])
  {
    var a := TrimStart(s);
    var r := TrimEnd(a);
    TrimPieces(s, a, r, LeadingSpace(s));
    r
  }

  /** Cutting white space off the front and then off the back leaves a
      piece of `s` at `k` with white space behind it. */
  lemma TrimPieces(s: string, a: string, r: string, k: nat)
    requires k == |s| - |a| && |a| <= |s| && a == s[k..]
    requires |r| <= |a| && r == a[..|r|] && AllSpace(a[|r|..])
    ensures k + |r| <= |s| && r == s[k..k + |r|] && AllSpace(s[k + |r|..])
  {
    assert s[k + |r|..] == a[|r|..];
  }

  /** A string trims to nothing exactly when it is all white space. */
  lemma TrimEmpty(s: string)
    ensures Trim(s) == "" <==> AllSpace(s)
  {
    var a := TrimStart(s);
    var r := TrimEnd(a);
    assert Trim(s) == r;
    if a == "" {
      assert s[..|s|] == s;
    } else {
      assert a[0] == s[|s| - |a|];
      assert !IsJsSpace(s[|s| - |a|]);
    }
  }

  /** A string with no white space at either end is its own trim. */
  lemma TrimOfTrimmed(s: string)
    requires s != [] ==> !IsJsSpace(s[0]) && !IsJsSpace(s[|s| - 1])
    ensures Trim(s) == s
  {
  }

  /** Trimming twice is trimming once. */
  lemma TrimIdempotent(s: string)
    ensures Trim(Trim(s)) == Trim(s)
  {
    TrimOfTrimmed(Trim(s));
  }

  // ----- The voice transcript

  /** `prev ? prev + ' ' + transcript : transcript`: the transcript goes
      after what was typed, with one space between, and replaces nothing. */
  function AppendTranscript(prev: string, transcript: string): (r: string)
    ensures |r| == |prev| + |transcript| + (if prev == "" then 0 else 1)
    ensures r[..|prev|] == prev && r[|r| - |transcript|..] == transcript
    ensures prev != "" ==> r[|prev|] == ' '
  {
    if prev != "" then prev + " " + transcript else transcript
  }

  // ----- The model-message rewrite

  predicate IsLineTerminator(c: char)
  {
    c == '\n' || c == '\r' || c == '\U{2028}' || c == '\U{2029}'
  }

  predicate StarsAt(s: string, j: nat)
  {
    j + 2 <= |s| && s[j] == '*' && s[j + 1] == '*'
  }

  /** Where the lazy group and its closing stars end when tried from
      index `j`: the first
      `**` at or after `j` with no line terminator before it, since `.`
      matches anything but a line terminator. */
  function FindClose(s: string, j: nat): (r: Option<nat>)
    requires j <= |s|
    decreases |s| - j
    ensures r.Some? ==> j <= r.value && StarsAt(s, r.value)
    ensures r.Some? ==> forall p :: j <= p < r.value ==> !StarsAt(s, p) && !IsLineTerminator(s[p])
  {
    if j + 2 > |s| then None
    else if StarsAt(s, j) then Some(j)
    else if IsLineTerminator(s[j]) then None
    else FindClose(s, j + 1)
  }

  /** When no closing `**` is found, every `**` after `j` lies past a line
      terminator, so the lazy group cannot reach it. */
  lemma {:induction false} FindCloseNone(s: string, j: nat)
    requires j <= |s|
    requires FindClose(s, j).None?
    ensures forall p :: j <= p && StarsAt(s, p) ==> exists q :: j <= q < p && IsLineTerminator(s[q])
    decreases |s| - j
  {
    if j + 2 <= |s| && !IsLineTerminator(s[j]) {
      FindCloseNone(s, j + 1);
    }
  }

  /** The global replace of the lazy pattern "two stars, any text, two
      stars" by `<strong>$1</strong>`: scanning left to right, a `**` that has a closing `**` later on the same line
      becomes a `<strong>` element around what lies between; any other
      character is kept. */
  function Bold(s: string): (r: string)
    ensures |r| >= |s| && (r == [] <==> s == [])
    decreases |s|
  {
    if s == [] then []
    else if StarsAt(s, 0) && FindClose(s, 2).Some? then
      var j := FindClose(s, 2).value;
      "<strong>" + s[2..j] + "</strong>" + Bold(s[j + 2..])
    else [s[0]] + Bold(s[1..])
  }

  /** `.replace(/\n/g, '<br/>')`. */
  function Br(s: string): (r: string)
    ensures '\n' !in r
    ensures |r| == |s| + 4 * Count(s, '\n')
  {
    if s == [] then []
    else (if s[0] == '\n' then "<br/>" else [s[0]]) + Br(s[1..])
  }

  /** The replacement works character by character: it distributes over
      concatenation. */
  lemma {:induction false} BrAppend(a: string, b: string)
    ensures Br(a + b) == Br(a) + Br(b)
  {
    if a != [] {
      assert (a + b)[1..] == a[1..] + b;
      BrAppend(a[1..], b);
    } else {
      assert a + b == b;
    }
  }

  function Count(s: string, c: char): nat
  {
    if s == [] then 0 else (if s[0] == c then 1 else 0) + Count(s[1..], c)
  }

  /** What a model message renders as: no raw line break is left, and
      each line break of the text grows by 4 characters into `<br/>`. */
  function Render(text: string): (r: string)
    ensures '\n' !in r
    ensures |r| == |Bold(text)| + 4 * Count(text, '\n')
  {
    BoldKeepsLines(text);
    Br(Bold(text))
  }

  lemma {:induction false} CountAppend(a: string, b: string, c: char)
    ensures Count(a + b, c) == Count(a, c) + Count(b, c)
  {
    if a != [] {
      assert (a + b)[1..] == a[1..] + b;
      CountAppend(a[1..], b, c);
    } else {
      assert a + b == b;
    }
  }

  /** A string without a `**` comes out of the bold rewrite unchanged. */
  lemma {:induction false} BoldWithoutStars(s: string)
    requires forall p :: 0 <= p < |s| ==> !StarsAt(s, p)
    ensures Bold(s) == s
  {
    if s != [] {
      assert forall p :: 0 <= p < |s| - 1 ==> (StarsAt(s[1..], p) <==> StarsAt(s, p + 1));
      BoldWithoutStars(s[1..]);
      assert [s[0]] + s[1..] == s;
    }
  }

  /** A bold span never crosses a line, so the rewrite keeps every line
      break: the rendered message has as many lines as the text. */
  lemma {:induction false} BoldKeepsLines(s: string)
    ensures Count(Bold(s), '\n') == Count(s, '\n')
  {
    if s != [] {
      if StarsAt(s, 0) && FindClose(s, 2).Some? {
        var j := FindClose(s, 2).value;
        BoldStep(s, j);
        BoldKeepsLines(s[j + 2..]);
        TagsHaveNoNewline();
        SpanLines(s, j, "<strong>", "</strong>", Bold(s[j + 2..]));
      } else {
        BoldKeepsLines(s[1..]);
        CountAppend([s[0]], Bold(s[1..]), '\n');
        CountAppend([s[0]], s[1..], '\n');
        assert [s[0]] + s[1..] == s;
      }
    }
  }

  /** One rewritten span keeps the line breaks of the text it replaces:
      the tags `open` and `close` around it hold none. */
  lemma SpanLines(s: string, j: nat, open: string, close: string, rest: string)
    requires StarsAt(s, 0) && 2 <= j && StarsAt(s, j)
    requires forall p :: 2 <= p < j ==> !IsLineTerminator(s[p])
    requires Count(open, '\n') == 0 && Count(close, '\n') == 0
    requires Count(rest, '\n') == Count(s[j + 2..], '\n')
    ensures Count(open + s[2..j] + close + rest, '\n') == Count(s, '\n')
  {
    var inner := s[2..j];
    assert forall p :: 0 <= p < |inner| ==> inner[p] == s[p + 2];
    NoNewlineCount(inner);
    NoNewlineCount(s[..2]);
    NoNewlineCount(s[j..j + 2]);
    CountOfFour(open, inner, close, rest);
    assert s == s[..2] + inner + s[j..j + 2] + s[j + 2..];
    CountOfFour(s[..2], inner, s[j..j + 2], s[j + 2..]);
  }

  lemma TagsHaveNoNewline()
    ensures Count("<strong>", '\n') == 0 && Count("</strong>", '\n') == 0
  {
    NoNewlineCount("<strong>");
    NoNewlineCount("</strong>");
  }

  lemma CountOfFour(a: string, b: string, c: string, d: string)
    ensures Count(a + b + c + d, '\n') == Count(a, '\n') + Count(b, '\n') + Count(c, '\n') + Count(d, '\n')
  {
    CountAppend(a + b + c, d, '\n');
    CountAppend(a + b, c, '\n');
    CountAppend(a, b, '\n');
  }

  lemma {:induction false} NoNewlineCount(s: string)
    requires forall p :: 0 <= p < |s| ==> !IsLineTerminator(s[p])
    ensures Count(s, '\n') == 0
  {
    if s != [] {
      NoNewlineCount(s[1..]);
    }
  }

  /** A whole `**x**`, with `x` on one line and holding no `**`, becomes
      exactly one `<strong>` element. */
  lemma BoldSpan(x: string)
    requires forall p :: 0 <= p < |x| ==> !IsLineTerminator(x[p])
    requires forall p :: 0 <= p < |x| ==> !StarsAt(x, p)
    requires x == [] || x[|x| - 1] != '*'
    ensures Bold("**" + x + "**") == "<strong>" + x + "</strong>"
  {
    var s := "**" + x + "**";
    SpanAt(x, s);
    FindCloseSpan(x, 2);
    BoldStep(s, |x| + 2);
  }

  lemma SpanAt(x: string, s: string)
    requires s == "**" + x + "**"
    ensures s[2..|x| + 2] == x && s[|x| + 4..] == [] && StarsAt(s, 0)
  {
  }

  /** A `**` with a closing `**` at `j` opens the output with one
      `<strong>` element. */
  lemma BoldStep(s: string, j: nat)
    requires StarsAt(s, 0) && FindClose(s, 2) == Some(j)
    ensures Bold(s) == "<strong>" + s[2..j] + "</strong>" + Bold(s[j + 2..])
  {
  }

  lemma {:induction false} FindCloseSpan(x: string, j: nat)
    requires 2 <= j <= |x| + 2
    requires forall p :: 0 <= p < |x| ==> !IsLineTerminator(x[p])
    requires forall p :: 0 <= p < |x| ==> !StarsAt(x, p)
    requires x == [] || x[|x| - 1] != '*'
    ensures FindClose("**" + x + "**", j) == Some(|x| + 2)
    decreases |x| + 2 - j
  {
    var s := "**" + x + "**";
    if j < |x| + 2 {
      assert s[j] == x[j - 2];
      if j + 1 < |x| + 2 {
        assert s[j + 1] == x[j - 1];
        assert !StarsAt(x, j - 2);
      } else {
        assert j - 2 == |x| - 1;
      }
      FindCloseSpan(x, j + 1);
    }
  }

  // ----- The transcript state

  datatype Role = User | Model

  datatype Message = Message(role: Role, text: string)

  /** How `sendMessage` settles: with a response whose `text` may be empty
      or missing (`""`), or by throwing. */
  datatype ChatReply = Replied(text: string) | Failed

  /** The model message a reply becomes. */
  function ReplyText(reply: ChatReply): (r: string)
    ensures r != ""
    ensures reply.Replied? && reply.text != "" ==> r == reply.text
    ensures reply.Replied? && reply.text == "" ==> r == EmptyReply
    ensures reply.Failed? ==> r == ConnectionError
  {
    match reply
    case Replied(text) => if text != "" then text else EmptyReply
    case Failed => ConnectionError
  }

  class ChatBot {
    var messages: seq<Message>
    var inputText: string
    var isLoading: bool
    /** `chatSessionRef.current` is set. */
    var hasSession: bool

    constructor ()
      ensures messages == [] && inputText == "" && !isLoading && !hasSession
    {
      messages, inputText, isLoading, hasSession := [], "", false, false;
    }

    /** The effect on a new `transactions` list: when the list is not
        empty and the session can be created, the session is replaced and
        the transcript becomes the one greeting; a failed creation changes
        nothing. */
    method ResetOnTransactions(count: nat, created: bool)
      modifies this`messages, this`hasSession
      ensures count > 0 && created ==> messages == [Message(Model, Greeting)] && hasSession
      ensures !(count > 0 && created) ==> messages == old(messages) && hasSession == old(hasSession)
    {
      if count > 0 {
        if created {
          hasSession := true;
          messages := [Message(Model, Greeting)];
        }
      }
    }

    /** The speech recogniser's `onresult`. */
    method OnSpeechResult(transcript: string)
      modifies this`inputText
      ensures inputText == AppendTranscript(old(inputText), transcript)
    {
      inputText := AppendTranscript(inputText, transcript);
    }

    /** `handleSend` up to the `await`. It does nothing when the trimmed
        input is empty or there is no session, and nothing can be sent
        while loading because the input and the button are disabled.
        Otherwise the input is cleared, the trimmed text is appended as
        the user's message and loading starts. */
    method SubmitInput() returns (sent: Option<string>)
      modifies this`inputText, this`messages, this`isLoading
      ensures old(Trim(inputText) == "" || !hasSession || isLoading) ==>
        && sent == None && inputText == old(inputText) && messages == old(messages)
        && isLoading == old(isLoading)
      ensures old(Trim(inputText) != "" && hasSession && !isLoading) ==>
        && sent == Some(old(Trim(inputText)))
        && inputText == "" && isLoading
        && messages == old(messages) + [Message(User, old(Trim(inputText)))]
    {
      if Trim(inputText) == "" || !hasSession || isLoading {
        return None;
      }
      var userMessage := Trim(inputText);
      inputText := "";
      messages := messages + [Message(User, userMessage)];
      isLoading := true;
      sent := Some(userMessage);
    }

    /** The rest of `handleSend` once the reply settles: one model message
        is appended and, in the `finally`, loading stops. */
    method ReceiveReply(reply: ChatReply)
      requires isLoading
      modifies this`messages, this`isLoading
      ensures messages == old(messages) + [Message(Model, ReplyText(reply))]
      ensures !isLoading
    {
      var responseText := ReplyText(reply);
      messages := messages + [Message(Model, responseText)];
      isLoading := false;
    }

    /** A whole send with nothing in between: either nothing changes, or
        exactly two messages are appended, the user's trimmed text and
        then the reply, the input is empty and loading is over. */
    method HandleSend(reply: ChatReply)
      modifies this`inputText, this`messages, this`isLoading
      ensures old(Trim(inputText) == "" || !hasSession || isLoading) ==>
        && inputText == old(inputText) && messages == old(messages) && isLoading == old(isLoading)
      ensures old(Trim(inputText) != "" && hasSession && !isLoading) ==>
        && inputText == "" && !isLoading
        && messages == old(messages) + [Message(User, old(Trim(inputText))), Message(Model, ReplyText(reply))]
    {
      var sent := SubmitInput();
      if sent.Some? {
        ReceiveReply(reply);
      }
    }
  }
}
