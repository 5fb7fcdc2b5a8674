/**
 Chat messages and the `input` items of a Responses request: how a conversation is written as items, how a
 response is read back into a message, and how the provider rewrites response items into input form.
 */
module ResponsesInput {
  import opened Wrappers
  import opened Json
  import opened Text

  // ----- Chat messages -----

  datatype Role = User | Assistant | Compaction

  datatype CompactionItem =
    | GenericSummary(summary: Option<string>)
    | CodexBuiltin(encrypted: Option<string>)
    | OtherBuiltin

  datatype Item =
    | Reasoning(text: string, parts: seq<string>, encryptedContent: Option<string>)
    | Context(text: string)
    | Compacted(compaction: CompactionItem)
    | Selection(promptText: string)
    | ToolCall(itemId: Option<string>, callId: string, name: string, arguments: string)
    | ToolResult(resultCallId: string, output: string)

  datatype Message = Message(role: Role, data: seq<Item>)

  function GenericText(c: CompactionItem): Option<string> {
    if c.GenericSummary? then c.summary else None
  }

  function EncryptedText(c: CompactionItem): Option<string> {
    if c.CodexBuiltin? then c.encrypted else None
  }

  // ----- Building input items -----

  function TextPart(kind: string, text: string): Value {
    Obj(map["type" := Str(kind), "text" := Str(text)])
  }

  function MessageItem(role: string, content: seq<Value>): Value {
    Obj(map["type" := Str("message"), "role" := Str(role), "content" := Arr(content)])
  }

  function ReasoningItem(summary: Value, encrypted: string): Value {
    Obj(map["type" := Str("reasoning"), "summary" := summary, "encrypted_content" := Str(encrypted)])
  }

  function CallItem(itemId: Option<string>, callId: string, name: string, arguments: string): Value {
    var base := map["type" := Str("function_call"), "name" := Str(name), "arguments" := Str(arguments),
                    "call_id" := Str(callId)];
    Obj(if itemId.Some? then base["id" := Str(itemId.value)] else base)
  }

  function ResultItem(callId: string, output: string): Value {
    Obj(map["type" := Str("function_call_output"), "call_id" := Str(callId), "output" := Str(output)])
  }

  function NonEmpty(parts: seq<string>): seq<string> {
    if parts == [] then [] else (if parts[0] == "" then [] else [parts[0]]) + NonEmpty(parts[1..])
  }

  function TextParts(kind: string, texts: seq<string>): (r: seq<Value>)
    ensures |r| == |texts|
    ensures forall i | 0 <= i < |texts| :: r[i] == TextPart(kind, texts[i])
  {
    seq(|texts|, i requires 0 <= i < |texts| => TextPart(kind, texts[i]))
  }

  function SummaryPayload(parts: seq<string>): Value {
    Arr(TextParts("summary_text", NonEmpty(parts)))
  }

  function UserText(item: Item): Option<string> {
    match item
    case Reasoning(_, _, _) => None
    case ToolResult(_, _) => None
    case Compacted(c) => GenericText(c)
    case Context(text) => Some(text)
    case Selection(text) => Some(text)
    case ToolCall(_, _, name, arguments) =>
      Some("<tool_call name=\"" + name + "\">" + arguments + "</tool_call>")
  }

  function UserContent(data: seq<Item>): seq<Value> {
    if data == [] then []
    else
      var text := UserText(data[0]);
      (if text.Some? then [TextPart("input_text", text.value)] else []) + UserContent(data[1..])
  }

  function ToolOutputs(data: seq<Item>): seq<Value> {
    if data == [] then []
    else (if data[0].ToolResult? then [ResultItem(data[0].resultCallId, data[0].output)] else []) + ToolOutputs(data[1..])
  }

  function CompactionInput(data: seq<Item>): seq<Value> {
    if data == [] then [] else CompactionItems(data[0]) + CompactionInput(data[1..])
  }

  function CompactionItems(item: Item): seq<Value> {
    if !item.Compacted? then []
    else
      var encrypted := EncryptedText(item.compaction);
      var generic := GenericText(item.compaction);
      if encrypted.Some? then
        if Trim(encrypted.value) != "" then
          [Obj(map["type" := Str("compaction"), "encrypted_content" := Str(encrypted.value)])]
        else []
      else if generic.Some? && Trim(generic.value) != "" then
        [MessageItem("user", [TextPart("input_text", generic.value)])]
      else []
  }

  /** Encrypted reasoning goes first, before anything the assistant said. */
  function ReasoningItems(data: seq<Item>): seq<Value> {
    if data == [] then []
    else
      (if data[0].Reasoning? && data[0].encryptedContent.Some? && data[0].encryptedContent.value != "" then
         [ReasoningItem(SummaryPayload(data[0].parts), data[0].encryptedContent.value)]
       else [])
      + ReasoningItems(data[1..])
  }

  function Flush(pending: seq<Value>): seq<Value> {
    if pending == [] then [] else [MessageItem("assistant", pending)]
  }

  function AssistantText(item: Item): Option<string> {
    match item
    case Context(text) => Some(text)
    case Compacted(c) => GenericText(c)
    case Selection(text) => Some(text)
    case _ => None
  }

  /** Texts pile up in `pending` until a tool call or the end turns them into one assistant message. */
  function AssistantItems(data: seq<Item>, pending: seq<Value>): seq<Value>
    decreases |data|
  {
    if data == [] then Flush(pending)
    else if data[0].ToolCall? then
      Flush(pending) + [CallItem(data[0].itemId, data[0].callId, data[0].name, data[0].arguments)]
      + AssistantItems(data[1..], [])
    else
      var text := AssistantText(data[0]);
      AssistantItems(data[1..], if text.Some? then pending + [TextPart("output_text", text.value)] else pending)
  }

  function MessageInput(message: Message): seq<Value> {
    match message.role
    case User =>
      var content := UserContent(message.data);
      (if content == [] then [] else [MessageItem("user", content)]) + ToolOutputs(message.data)
    case Compaction => CompactionInput(message.data)
    case Assistant =>
      ReasoningItems(message.data) + AssistantItems(message.data, []) + ToolOutputs(message.data)
  }

  /** `build_responses_input`. */
  function BuildInput(messages: seq<Message>): seq<Value> {
    if messages == [] then [] else MessageInput(messages[0]) + BuildInput(messages[1..])
  }

  lemma {:induction false} BuildInputCons(message: Message, rest: seq<Message>)
    ensures BuildInput([message] + rest) == MessageInput(message) + BuildInput(rest)
  {
    assert ([message] + rest)[1..] == rest;
  }

  lemma {:induction false} BuildInputConcat(a: seq<Message>, b: seq<Message>)
    ensures BuildInput(a + b) == BuildInput(a) + BuildInput(b)
  {
    if a == [] {
      assert a + b == b && BuildInput(a) + BuildInput(b) == BuildInput(b);
    } else {
      var first, rest := a[0], a[1..];
      assert a == [first] + rest && a + b == [first] + (rest + b);
      calc {
        BuildInput(a + b);
        { BuildInputCons(first, rest + b); }
        MessageInput(first) + BuildInput(rest + b);
        { BuildInputConcat(rest, b); }
        MessageInput(first) + (BuildInput(rest) + BuildInput(b));
        { ConcatAssociative(MessageInput(first), BuildInput(rest), BuildInput(b)); }
        (MessageInput(first) + BuildInput(rest)) + BuildInput(b);
        { BuildInputCons(first, rest); }
        BuildInput(a) + BuildInput(b);
      }
    }
  }

  // ----- Normalisation before sending -----

  /** What the provider keeps of one item: reasoning without encrypted content and foreign compactions go. */
  function NormalizeItem(item: Item): Option<Item> {
    match item
    case Reasoning(_, parts, encrypted) =>
      if encrypted.Some? && encrypted.value != "" then Some(Reasoning("", parts, encrypted)) else None
    case Compacted(c) =>
      if GenericText(c).Some? || EncryptedText(c).Some? then Some(item) else None
    case _ => Some(item)
  }

  function NormalizeData(data: seq<Item>): seq<Item> {
    if data == [] then []
    else
      var kept := NormalizeItem(data[0]);
      (if kept.Some? then [kept.value] else []) + NormalizeData(data[1..])
  }

  /** `normalize_messages_for_provider`: a message left without items disappears. */
  function Normalize(messages: seq<Message>): seq<Message> {
    if messages == [] then []
    else
      var data := NormalizeData(messages[0].data);
      (if data == [] then [] else [Message(messages[0].role, data)]) + Normalize(messages[1..])
  }

  lemma {:induction false} NormalizeDataKeepsParts(data: seq<Item>, pending: seq<Value>)
    ensures UserContent(NormalizeData(data)) == UserContent(data)
    ensures ToolOutputs(NormalizeData(data)) == ToolOutputs(data)
    ensures CompactionInput(NormalizeData(data)) == CompactionInput(data)
    ensures ReasoningItems(NormalizeData(data)) == ReasoningItems(data)
    ensures AssistantItems(NormalizeData(data), pending) == AssistantItems(data, pending)
    decreases |data|
  {
    if data != [] {
      hide NormalizeData, NormalizeItem, UserContent, ToolOutputs, CompactionInput, ReasoningItems, AssistantItems;
      NormalizeDataKeepsParts(data[1..], PendingWith(data[0], pending));
      NormalizeFirst(data);
      ContentOfFirst(data);
      ReasoningOfFirst(data);
      AssistantOfFirst(data, pending);
    }
  }

  function PendingWith(item: Item, pending: seq<Value>): seq<Value> {
    var text := AssistantText(item);
    if item.ToolCall? then [] else if text.Some? then pending + [TextPart("output_text", text.value)] else pending
  }

  lemma {:induction false} NormalizeFirst(data: seq<Item>)
    requires data != []
    ensures var kept := NormalizeItem(data[0]);
            NormalizeData(data) == if kept.Some? then [kept.value] + NormalizeData(data[1..]) else NormalizeData(data[1..])
  {
    hide NormalizeItem;
  }

  /** The first item contributes the same content, results and compaction, kept or dropped. */
  lemma {:induction false} ContentOfFirst(data: seq<Item>)
    requires data != []
    ensures var kept, rest := NormalizeItem(data[0]), NormalizeData(data[1..]);
            var all := if kept.Some? then [kept.value] + rest else rest;
            && (UserContent(rest) == UserContent(data[1..]) ==> UserContent(all) == UserContent(data))
            && (ToolOutputs(rest) == ToolOutputs(data[1..]) ==> ToolOutputs(all) == ToolOutputs(data))
            && (CompactionInput(rest) == CompactionInput(data[1..]) ==> CompactionInput(all) == CompactionInput(data))
  {
    hide NormalizeData, TextPart, ResultItem;
    var kept, rest := NormalizeItem(data[0]), NormalizeData(data[1..]);
    if kept.Some? {
      assert ([kept.value] + rest)[1..] == rest;
    }
  }

  lemma {:induction false} ReasoningOfFirst(data: seq<Item>)
    requires data != []
    ensures var kept, rest := NormalizeItem(data[0]), NormalizeData(data[1..]);
            ReasoningItems(rest) == ReasoningItems(data[1..]) ==>
              ReasoningItems(if kept.Some? then [kept.value] + rest else rest) == ReasoningItems(data)
  {
    hide NormalizeData, SummaryPayload, ReasoningItem;
    var kept, rest := NormalizeItem(data[0]), NormalizeData(data[1..]);
    if kept.Some? {
      assert ([kept.value] + rest)[1..] == rest;
    }
  }

  lemma {:induction false} AssistantOfFirst(data: seq<Item>, pending: seq<Value>)
    requires data != []
    ensures var kept, rest, next := NormalizeItem(data[0]), NormalizeData(data[1..]), PendingWith(data[0], pending);
            AssistantItems(rest, next) == AssistantItems(data[1..], next) ==>
              AssistantItems(if kept.Some? then [kept.value] + rest else rest, pending) == AssistantItems(data, pending)
  {
    hide NormalizeData, TextPart, CallItem, Flush;
    var kept, rest := NormalizeItem(data[0]), NormalizeData(data[1..]);
    if kept.Some? {
      assert ([kept.value] + rest)[1..] == rest;
    }
  }

  lemma {:induction false} MessageInputKept(message: Message)
    ensures MessageInput(Message(message.role, NormalizeData(message.data))) == MessageInput(message)
  {
    hide NormalizeData, UserContent, ToolOutputs, CompactionInput, ReasoningItems, AssistantItems;
    NormalizeDataKeepsParts(message.data, []);
  }

  lemma {:induction false} EmptyMessage(role: Role)
    ensures MessageInput(Message(role, [])) == []
  {
  }

  /** Normalisation never changes the request: every message list builds the same input before and after. */
  lemma {:induction false} NormalizePreservesInput(messages: seq<Message>)
    ensures BuildInput(Normalize(messages)) == BuildInput(messages)
  {
    hide MessageInput, NormalizeData;
    if messages != [] {
      var data := NormalizeData(messages[0].data);
      MessageInputKept(messages[0]);
      NormalizePreservesInput(messages[1..]);
      if data == [] {
        EmptyMessage(messages[0].role);
        assert Normalize(messages) == Normalize(messages[1..]);
      } else {
        assert Normalize(messages)[1..] == Normalize(messages[1..]);
      }
    }
  }

  // ----- Reading a response -----

  /** The output of a response; none when it is missing or no list. */
  function OutputItems(response: Value): seq<Value> {
    AsArr(Get(response, "output")).UnwrapOr([])
  }

  /** The texts the provider takes from the content of an assistant message. */
  function ContentText(part: Value): Option<string> {
    var kind := StrField(part, "type");
    if kind == Some("output_text") || kind == Some("text") || kind == Some("refusal") then
      var text := StrField(part, "text");
      if text.Some? && text.value != "" then text else None
    else None
  }

  function ContentTexts(content: seq<Value>): (r: seq<string>)
    ensures forall t | t in r :: t != ""
  {
    if content == [] then []
    else
      var text := ContentText(content[0]);
      (if text.Some? then [text.value] else []) + ContentTexts(content[1..])
  }

  predicate IsAssistantMessage(item: Value) {
    StrField(item, "type") == Some("message") && StrField(item, "role") == Some("assistant")
  }

  /** The texts of an assistant message; none when its content is not a list. */
  function MessageTexts(item: Value): seq<string> {
    var content := AsArr(Get(item, "content"));
    if content.Some? then ContentTexts(content.value) else []
  }

  function Encrypted(item: Value): Option<string> {
    var content := StrField(item, "encrypted_content");
    if content.Some? && content.value != "" then content else None
  }

  function SummaryTexts(parts: seq<Value>): seq<string> {
    if parts == [] then []
    else
      var text := StrField(parts[0], "text").Or(AsStr(Some(parts[0])));
      (if text.Some? && text.value != "" then [text.value] else []) + SummaryTexts(parts[1..])
  }

  function ReasoningSummary(item: Value): seq<string> {
    var summary := AsArr(Get(item, "summary"));
    if summary.Some? then SummaryTexts(summary.value) else []
  }

  function ExtractReasoning(item: Value): seq<Item> {
    var summary := ReasoningSummary(item);
    var encrypted := Encrypted(item);
    if summary != [] || encrypted.Some? then [Reasoning("", summary, encrypted)]
    else
      var text := StrField(item, "text");
      if text.Some? && text.value != "" then [Reasoning(text.value, [], None)] else []
  }

  /** `value_to_arguments_string`; `show` is the JSON serializer used for arguments that are not strings. */
  function ArgumentsText(arguments: Option<Value>, show: Value -> string): string {
    match arguments
    case None => "{}"
    case Some(Str(text)) => text
    case Some(other) => show(other)
  }

  function Contexts(texts: seq<string>): (r: seq<Item>)
    ensures |r| == |texts| && forall i | 0 <= i < |texts| :: r[i] == Context(texts[i])
  {
    seq(|texts|, i requires 0 <= i < |texts| => Context(texts[i]))
  }

  /** `image_reference_from_item`: where the reference of an image part can stand. */
  function ImageReference(part: Value): Option<string> {
    UrlText(Get(part, "image_url")).Or(UrlText(Get(part, "imageUrl"))).Or(UrlText(Get(part, "url")))
    .Or(StrField(part, "result"))
  }

  function UrlText(v: Option<Value>): Option<string> {
    match v
    case Some(Str(text)) => Some(text)
    case Some(Obj(fields)) =>
      StrField(Obj(fields), "url").Or(StrField(Obj(fields), "image_url")).Or(StrField(Obj(fields), "imageUrl"))
    case _ => None
  }

  predicate IsImagePart(part: Value) {
    && StrField(part, "type") in {Some("image_url"), Some("output_image"), Some("input_image")}
    && ImageReference(part).Some?
  }

  /** Whether reading this item would store an image. */
  predicate HasImage(item: Value) {
    if IsAssistantMessage(item) then
      var content := AsArr(Get(item, "content"));
      content.Some? && exists i | 0 <= i < |content.value| :: IsImagePart(content.value[i])
    else StrField(item, "type") == Some("image_generation_call") && StrField(item, "result").Some?
  }

  predicate NoImages(output: seq<Value>) {
    forall i | 0 <= i < |output| :: !HasImage(output[i])
  }

  /** What one output item contributes to the parsed message; None when the whole response is rejected. */
  function ParseItem(item: Value, show: Value -> string): Option<seq<Item>>
    requires !HasImage(item)
  {
    var kind := StrField(item, "type");
    if IsAssistantMessage(item) then Some(Contexts(MessageTexts(item)))
    else if kind == Some("reasoning") then Some(ExtractReasoning(item))
    else if kind == Some("function_call") then
      var callId := StrField(item, "call_id");
      var name := StrField(item, "name");
      if callId.None? || name.None? then None
      else
        Some([ToolCall(StrField(item, "id"), callId.value, name.value, ArgumentsText(Get(item, "arguments"), show))])
    else Some([])
  }

  function ParseOutput(output: seq<Value>, show: Value -> string): Option<seq<Item>>
    requires NoImages(output)
  {
    if output == [] then Some([])
    else
      var first := ParseItem(output[0], show);
      var rest := ParseOutput(output[1..], show);
      if first.Some? && rest.Some? then Some(first.value + rest.value) else None
  }

  // ----- Canonical input form of output items -----

  function CallFields(item: Value): Fields
    requires item.Obj?
  {
    (map key | key in {"name", "arguments", "call_id", "id"} * item.fields.Keys :: item.fields[key])
    + map["type" := Str("function_call")]
  }

  /** `canonical_response_output_item_for_input`. */
  function Canonical(item: Value): Option<Value> {
    var kind := StrField(item, "type");
    if kind.None? then None
    else if IsAssistantMessage(item) then
      var texts := MessageTexts(item);
      if texts == [] then None else Some(MessageItem("assistant", TextParts("output_text", texts)))
    else if kind == Some("reasoning") then
      var encrypted := Encrypted(item);
      if encrypted.None? then None
      else Some(ReasoningItem(Get(item, "summary").UnwrapOr(Arr([])), encrypted.value))
    else if kind == Some("function_call") then Some(Obj(CallFields(item)))
    else Some(item)
  }

  function CanonicalOutput(output: seq<Value>): seq<Value> {
    if output == [] then []
    else
      var first := Canonical(output[0]);
      (if first.Some? then [first.value] else []) + CanonicalOutput(output[1..])
  }
}
