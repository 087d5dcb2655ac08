/**
 * The chat message element of NiceGUI (nicegui/elements/chat_message.py).
 * Its constructor fills the `_props` dictionary that is handed to Quasar's
 * chat message component: the text always as a list of parts, the optional
 * fields only when they are given, and the `sent` flag always.
 */
module ChatMessageElement {
  import opened Wrappers

  /** The `text` argument: one string, or a list of message parts. */
  datatype Text = Single(s: string) | Parts(parts: seq<string>)

  /** The values the constructor stores in `_props`. */
  datatype PropValue = StrList(items: seq<string>) | Str(s: string) | Bool(b: bool)

  /** `[text] if isinstance(text, str) else text`. */
  function TextParts(text: Text): seq<string> {
    match text
    case Single(s) => [s]
    case Parts(parts) => parts
  }

  /** The keys the chat message constructor may write. */
  const ChatKeys: set<string> := {"text", "name", "label", "stamp", "avatar", "sent"}

  /** `if value is not None: props[key] = value`. */
  function PutIfGiven(props: map<string, PropValue>, key: string, value: Option<string>): map<string, PropValue> {
    if value.Some? then props[key := Str(value.value)] else props
  }

  /**
   * A given value is stored under its key, a missing one leaves the entry as
   * it was, and no other key is touched.
   */
  lemma {:induction false} PutIfGivenEntries(props: map<string, PropValue>, key: string, value: Option<string>)
    ensures var r := PutIfGiven(props, key, value);
      forall k :: k != key ==> (k in r <==> k in props) && (k in props ==> r[k] == props[k])
    ensures var r := PutIfGiven(props, key, value);
      && (key in r <==> key in props || value.Some?)
      && (value.Some? ==> r[key] == Str(value.value))
      && (value.None? && key in props ==> r[key] == props[key])
  {
    if value.None? {
      assert PutIfGiven(props, key, value) == props;
    }
  }

  /**
   * The dictionary the constructor leaves behind, starting from `base`, what
   * the `Element` constructor put there.
   */
  function ChatProps(
    base: map<string, PropValue>, text: Text, name: Option<string>, labelText: Option<string>,
    stamp: Option<string>, avatar: Option<string>, sent: bool): map<string, PropValue>
  {
    var withText := base["text" := StrList(TextParts(text))];
    var withFields := PutIfGiven(PutIfGiven(PutIfGiven(PutIfGiven(
      withText, "name", name), "label", labelText), "stamp", stamp), "avatar", avatar);
    withFields["sent" := Bool(sent)]
  }

  /**
   * What the constructor writes: `text` always, as a list of parts, each
   * optional field when it is given, `sent` always; every key outside the six
   * chat message keys keeps what `base` held.
   */
  lemma {:induction false} ChatPropsEntries(
    base: map<string, PropValue>, text: Text, name: Option<string>, labelText: Option<string>,
    stamp: Option<string>, avatar: Option<string>, sent: bool)
    ensures var r := ChatProps(base, text, name, labelText, stamp, avatar, sent);
      && r.Keys <= base.Keys + ChatKeys
      && (forall k :: k !in ChatKeys ==> (k in r <==> k in base) && (k in base ==> r[k] == base[k]))
    ensures var r := ChatProps(base, text, name, labelText, stamp, avatar, sent);
      && "text" in r && r["text"] == StrList(if text.Single? then [text.s] else text.parts)
      && "sent" in r && r["sent"] == Bool(sent)
    ensures var r := ChatProps(base, text, name, labelText, stamp, avatar, sent);
      && ("name" in r <==> name.Some? || "name" in base) && (name.Some? ==> r["name"] == Str(name.value))
      && ("label" in r <==> labelText.Some? || "label" in base) && (labelText.Some? ==> r["label"] == Str(labelText.value))
    ensures var r := ChatProps(base, text, name, labelText, stamp, avatar, sent);
      && ("stamp" in r <==> stamp.Some? || "stamp" in base) && (stamp.Some? ==> r["stamp"] == Str(stamp.value))
      && ("avatar" in r <==> avatar.Some? || "avatar" in base) && (avatar.Some? ==> r["avatar"] == Str(avatar.value))
  {
    var m1 := base["text" := StrList(TextParts(text))];
    var m2 := PutIfGiven(m1, "name", name);
    var m3 := PutIfGiven(m2, "label", labelText);
    var m4 := PutIfGiven(m3, "stamp", stamp);
    var m5 := PutIfGiven(m4, "avatar", avatar);
    PutIfGivenEntries(m1, "name", name);
    PutIfGivenEntries(m2, "label", labelText);
    PutIfGivenEntries(m3, "stamp", stamp);
    PutIfGivenEntries(m4, "avatar", avatar);
  }

  class ChatMessage {
    /** `self._props`. */
    var props: map<string, PropValue>

    /**
     * `ChatMessage(text, *, name=None, label=None, stamp=None, avatar=None, sent=False)`.
     * `baseProps` is what the `Element` constructor left in `_props`.
     */
    constructor (
      baseProps: map<string, PropValue>, text: Text,
      nameonly name: Option<string> := None, nameonly labelText: Option<string> := None,
      nameonly stamp: Option<string> := None, nameonly avatar: Option<string> := None,
      nameonly sent: bool := false)
      ensures props == ChatProps(baseProps, text, name, labelText, stamp, avatar, sent)
    {
      props := baseProps;
      new;
      props := props["text" := StrList(TextParts(text))];
      if name.Some? {
        props := props["name" := Str(name.value)];
      }
      if labelText.Some? {
        props := props["label" := Str(labelText.value)];
      }
      if stamp.Some? {
        props := props["stamp" := Str(stamp.value)];
      }
      if avatar.Some? {
        props := props["avatar" := Str(avatar.value)];
      }
      props := props["sent" := Bool(sent)];
    }
  }

  /**
   * A message built from its text alone on an element with no props of its
   * own: the text as a list of parts and `sent` false, nothing else.
   */
  method PlainMessageProps(text: string) returns (props: map<string, PropValue>)
    ensures props == map["text" := StrList([text]), "sent" := Bool(false)]
  {
    var message := new ChatMessage(map[], Single(text));
    props := message.props;
    ChatPropsEntries(map[], Single(text), None, None, None, None, false);
  }
}
