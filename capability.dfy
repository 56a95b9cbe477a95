/**
 * The boundary with the language model. A call either raises (`CallFailed`) or returns
 * text (`Returned`); `json.loads` and the reading of the parsed object are a decoder
 * passed in by the caller, and the code-fence stripping that the ranking, drafting and
 * quality stages apply before decoding lives here, once.
 */
module Capability {
  import opened Text

  /** The outcome of `client.messages.create(...)`: the exception's message, or the reply text. */
  datatype CallResult = CallFailed(error: string) | Returned(text: string)

  /**
   * The outcome of decoding a reply into the object a stage reads: the object, a
   * `json.JSONDecodeError`, or any other exception raised while reading it (for instance
   * JSON that is not an object, so `.get` fails).
   */
  datatype Decoded<T> = Ok(value: T) | JsonError(message: string) | OtherError(message: string)

  const Fence: string := "```"

  /** The lines left once the opening fence line (if it is one) is dropped. */
  function DropOpening(lines: seq<string>): seq<string>
    requires |lines| >= 1
  {
    if StartsWith(lines[0], Fence) then lines[1..] else lines
  }

  /** The lines left once a last line that trims to a fence is dropped. */
  function DropClosing(lines: seq<string>): seq<string> {
    if |lines| > 0 && Trim(lines[|lines| - 1]) == Fence then lines[..|lines| - 1] else lines
  }

  /**
   * Removes a Markdown code fence: text that does not start with three back-ticks is kept;
   * otherwise its first line goes, its last line goes too when it trims to three back-ticks,
   * and what is left is re-joined and stripped.
   */
  function Unfence(text: string): (r: string)
    ensures !StartsWith(text, Fence) ==> r == text
    ensures StartsWith(text, Fence) ==> r == [] || (!IsSpace(r[0]) && !IsSpace(r[|r| - 1]))
  {
    if !StartsWith(text, Fence) then text
    else Trim(Join(DropClosing(DropOpening(Split(text, '\n'))), '\n'))
  }

  /** A fenced text whose first line is `opening` unfences to what follows that line, closing fence dropped. */
  lemma UnfenceAfterOpening(opening: string, rest: string)
    requires StartsWith(opening, Fence) && '\n' !in opening
    ensures Unfence(opening + "\n" + rest) == Trim(Join(DropClosing(Split(rest, '\n')), '\n'))
  {
    var text := opening + "\n" + rest;
    assert StartsWith(text, Fence) by { assert text[..3] == opening[..3]; }
    assert Split(text, '\n') == [opening] + Split(rest, '\n') by {
      assert text == opening + ['\n'] + rest;
      SplitAround(opening, '\n', rest);
      SplitPlain(opening, '\n');
    }
  }

  /** The text the ranking, drafting and quality stages hand to `json.loads`: stripped, then unfenced. */
  function FencedPayload(reply: string): string {
    Unfence(Trim(reply))
  }

  /** A stage's decoding of a call outcome; a failed call surfaces as its exception. */
  function ReadReply<T>(reply: CallResult, decode: string -> Decoded<T>): Decoded<T> {
    match reply
    case CallFailed(e) => OtherError(e)
    case Returned(t) => decode(FencedPayload(t))
  }

  /** A fenced payload is recovered exactly (up to surrounding whitespace), whatever the opening line's tag. */
  lemma FencedRoundTrip(opening: string, payload: string)
    requires StartsWith(opening, Fence) && '\n' !in opening
    ensures Unfence(opening + "\n" + payload + "\n" + Fence) == Trim(payload)
  {
    var rest := payload + "\n" + Fence;
    assert opening + "\n" + payload + "\n" + Fence == opening + "\n" + rest;
    UnfenceAfterOpening(opening, rest);
    ClosingLine(payload);
    JoinSplit(payload, '\n');
  }

  /** A reply that is a fenced block hands its payload, stripped, to the decoder. */
  lemma FencedReplyPayload(opening: string, payload: string)
    requires StartsWith(opening, Fence) && '\n' !in opening
    ensures FencedPayload(opening + "\n" + payload + "\n" + Fence) == Trim(payload)
  {
    var text := opening + "\n" + payload + "\n" + Fence;
    assert text[0] == opening[0] == '`' && text[|text| - 1] == '`';
    TrimUnchanged(text);
    FencedRoundTrip(opening, payload);
  }

  /** A closing fence on its own last line is what `DropClosing` removes. */
  lemma ClosingLine(payload: string)
    ensures DropClosing(Split(payload + "\n" + Fence, '\n')) == Split(payload, '\n')
  {
    assert payload + "\n" + Fence == payload + ['\n'] + Fence;
    SplitAround(payload, '\n', Fence);
    SplitPlain(Fence, '\n');
    assert Trim(Fence) == Fence;
  }

  /** The opening line is dropped even when no closing fence follows. */
  lemma OpeningFenceAlone(opening: string, payload: string)
    requires StartsWith(opening, Fence) && '\n' !in opening
    requires Trim(Split(payload, '\n')[|Split(payload, '\n')| - 1]) != Fence
    ensures Unfence(opening + "\n" + payload) == Trim(payload)
  {
    UnfenceAfterOpening(opening, payload);
    JoinSplit(payload, '\n');
  }

  /** A fenced reply on a single line (a lone fence, or a fence glued to its payload) unfences to nothing. */
  lemma SingleLineFence(text: string)
    requires StartsWith(text, Fence) && '\n' !in text
    ensures Unfence(text) == ""
  {
    SplitPlain(text, '\n');
    assert Split(text, '\n')[1..] == [];
  }
}
