/** An output that does not replay. */
module ReplayExamples {
  import opened Wrappers
  import opened Json
  import opened ResponsesInput
  import opened Replay

  function Say(text: string): Value {
    MessageItem("assistant", [TextPart("output_text", text)])
  }

  /** The smallest failure: two messages in a row come back as one with two texts. */
  lemma {:induction false} TwoMessagesDoNotReplay(show: Value -> string)
    ensures var output := [Say("a"), Say("b")];
            && NoImages(output) && ParseOutput(output, show).Some? && CanonicalOutput(output) == output
            && ReplayItems(ParseOutput(output, show).value) != CanonicalOutput(output)
  {
    var output := [Say("a"), Say("b")];
    Said("a", show);
    Said("b", show);
    assert output[1..] == [Say("b")] && [Say("b")][1..] == [];
    hide ParseItem, Canonical, HasImage;
    assert CanonicalOutput([Say("b")]) == [Say("b")] + CanonicalOutput([]) == [Say("b")];
    assert CanonicalOutput(output) == [Say("a")] + CanonicalOutput([Say("b")]) == output;
    assert ParseOutput([], show) == Some([]) && ParseOutput([Say("b")], show).Some?;
    RoundTrip(output, show);
    assert IsAssistantMessage(output[0]) && IsAssistantMessage(output[1]);
  }

  lemma {:induction false} Said(text: string, show: Value -> string)
    requires text != ""
    ensures !HasImage(Say(text)) && ParseItem(Say(text), show).Some? && Canonical(Say(text)) == Some(Say(text))
    ensures IsAssistantMessage(Say(text))
  {
    var part := TextPart("output_text", text);
    assert ContentText(part) == Some(text);
    assert [part][1..] == [] && ContentTexts([part]) == [text];
    assert TextParts("output_text", [text]) == [part];
  }
}
