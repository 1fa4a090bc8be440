/** The newline framing of a batch: what is written to the stream and what a line reader gets back. */
module Framing {
  import opened Wrappers
  import opened Json
  import opened Selections

  /** serde_json::to_string: the text of a value, or an error. */
  type Serializer = Value -> Option<string>

  const NEWLINE: char := '\n'

  /** JSON text has no raw newline (section 7 of RFC 8259: control characters are escaped). */
  ghost predicate NewlineFree(serialize: Serializer) {
    forall v :: serialize(v).Some? ==> NEWLINE !in serialize(v).value
  }

  /** The texts of the logs that serialize, in order. */
  function Texts(batch: seq<Value>, serialize: Serializer): seq<string> {
    if batch == [] then []
    else
      var text := serialize(batch[|batch| - 1]);
      Texts(batch[..|batch| - 1], serialize) + if text.Some? then [text.value] else []
  }

  /** One text for each log that serializes, in the order of the batch. */
  lemma {:induction false} TextsInOrder(batch: seq<Value>, serialize: Serializer) returns (at: seq<nat>)
    ensures Keeps(batch, Texts(batch, serialize), at, serialize)
  {
    hide Keeps;
    if batch == [] {
      at := [];
      KeepsNothing<Value, string>(serialize);
    } else {
      var init, last := batch[..|batch| - 1], batch[|batch| - 1];
      at := TextsInOrder(init, serialize);
      assert batch == init + [last];
      var own := serialize(last);
      assert Texts(batch, serialize) == if own.Some? then Texts(init, serialize) + [own.value] else Texts(init, serialize);
      at := KeepsSnoc(init, Texts(init, serialize), at, serialize, last);
    }
  }

  /** What a reader that splits at newlines sees; text after the last newline is an unfinished line. */
  function SplitLines(s: string, unfinished: string := []): (lines: seq<string>) {
    if s == [] then (if unfinished == [] then [] else [unfinished])
    else if s[0] == NEWLINE then [unfinished] + SplitLines(s[1..], [])
    else SplitLines(s[1..], unfinished + [s[0]])
  }

  lemma {:induction false} SplitOneLine(line: string, rest: string, unfinished: string)
    requires NEWLINE !in line
    ensures SplitLines(line + [NEWLINE] + rest, unfinished) == [unfinished + line] + SplitLines(rest, [])
  {
    var s := line + [NEWLINE] + rest;
    if line == [] {
      assert s[1..] == rest && unfinished + line == unfinished;
    } else {
      assert s[1..] == line[1..] + [NEWLINE] + rest;
      assert unfinished + line == (unfinished + [line[0]]) + line[1..];
      SplitOneLine(line[1..], rest, unfinished + [line[0]]);
    }
  }

  function Payload(texts: seq<string>): string {
    if texts == [] then [] else texts[0] + [NEWLINE] + Payload(texts[1..])
  }

  lemma {:induction false} PayloadSnoc(texts: seq<string>, text: string)
    ensures Payload(texts + [text]) == Payload(texts) + text + [NEWLINE]
  {
    if texts == [] {
      assert texts + [text] == [text];
      assert Payload([text]) == text + [NEWLINE] + Payload([]);
    } else {
      assert (texts + [text])[1..] == texts[1..] + [text];
      PayloadSnoc(texts[1..], text);
    }
  }

  lemma {:induction false} SplitPayload(texts: seq<string>)
    requires forall t :: t in texts ==> NEWLINE !in t
    ensures SplitLines(Payload(texts), []) == texts
  {
    if texts != [] {
      SplitOneLine(texts[0], Payload(texts[1..]), []);
      assert [] + texts[0] == texts[0];
      SplitPayload(texts[1..]);
    }
  }

  lemma {:induction false} TextsNewlineFree(batch: seq<Value>, serialize: Serializer)
    requires NewlineFree(serialize)
    ensures forall t :: t in Texts(batch, serialize) ==> NEWLINE !in t
  {
    if batch != [] {
      TextsNewlineFree(batch[..|batch| - 1], serialize);
    }
  }

  /** The loop of flush_batch_to_elk: splitting its payload at newlines gives back the serialized logs in order. */
  method BuildPayload(batch: seq<Value>, serialize: Serializer) returns (payload: string)
    ensures payload == Payload(Texts(batch, serialize))
    ensures NewlineFree(serialize) ==> SplitLines(payload, []) == Texts(batch, serialize)
  {
    payload := "";
    var i := 0;
    while i < |batch|
      invariant i <= |batch| && payload == Payload(Texts(batch[..i], serialize))
    {
      assert batch[..i + 1][..i] == batch[..i];
      match serialize(batch[i]) {
        case Some(text) =>
          PayloadSnoc(Texts(batch[..i], serialize), text);
          payload := payload + text;
          payload := payload + [NEWLINE];
        case None =>
          assert Texts(batch[..i + 1], serialize) == Texts(batch[..i], serialize);
      }
      i := i + 1;
    }
    assert batch[..i] == batch;
    if NewlineFree(serialize) {
      TextsNewlineFree(batch, serialize);
      SplitPayload(Texts(batch, serialize));
    }
  }
}
