/**
 Stream fields: XADD stores every value as text, the analyzer turns two of them back into JSON. A dead letter is the
 delivered fields and an error text.
 */
module StreamCodec {
  import opened Domain
  import opened JsonText

  /** Field values as Python holds them: texts when they come from the stream. */
  type Fields = map<string, Json>

  const FRAME_URIS := "frame_uris"
  const TRIGGER := "edge_trigger_metadata"
  const REGION := "region_id"
  const ERROR := "error"

  /** str of a number: a float that JSON has no number for is written in another way than in a JSON text. */
  function NumberAsText(text: string): string {
    if text == "NaN" then "nan" else if text == "Infinity" then "inf" else if text == "-Infinity" then "-inf" else text
  }

  /** str(v) of a value that is neither a dict nor a list. */
  function AsText(v: Json): string
    requires !v.Arr? && !v.Obj?
  {
    match v
    case Null => "None"
    case Bool(b) => if b then "True" else "False"
    case Number(text) => NumberAsText(text)
    case Str(s) => s
  }

  function EncodeValue(v: Json): Json {
    Str(if v.Arr? || v.Obj? then Dumps(v) else AsText(v))
  }

  /** The payload that xadd stores. */
  function Encoded(fields: Fields): Fields {
    map key | key in fields :: EncodeValue(fields[key])
  }

  /** Python's truth value; a zero is written in one of three ways. */
  predicate Falsy(v: Json) {
    v == Null || v == Bool(false) || v == Str("") || v == Arr([]) || v == Obj([])
    || v == Number("0") || v == Number("0.0") || v == Number("-0.0")
  }

  function DefaultOf(key: string): Json {
    if key == FRAME_URIS then Arr([]) else Obj([])
  }

  /** One of the two JSON fields; none when json.loads raises. */
  function DecodeField(fields: Fields, key: string): Option<Json> {
    if key !in fields || fields[key] == Null || fields[key] == Str("") then Some(DefaultOf(key))
    else if fields[key].Str? then Loads(fields[key].s)
    else Some(fields[key])
  }

  function DecodeRegion(fields: Fields): Json {
    if REGION !in fields || Falsy(fields[REGION]) then Str("") else fields[REGION]
  }

  /** The parsed fields; none when one of them is no JSON text. */
  function Decoded(fields: Fields): Option<Fields> {
    var uris, trigger := DecodeField(fields, FRAME_URIS), DecodeField(fields, TRIGGER);
    if uris.None? || trigger.None? then None
    else Some(fields[FRAME_URIS := uris.value][TRIGGER := trigger.value][REGION := DecodeRegion(fields)])
  }

  /** The loop over the two fields, on a copy of the fields. */
  method ParseStreamFields(fields: Fields) returns (parsed: Option<Fields>)
    ensures parsed == Decoded(fields)
  {
    var copy, keys := fields, [FRAME_URIS, TRIGGER];
    var i := 0;
    while i < |keys|
      invariant 0 <= i <= |keys|
      invariant 1 <= i ==> DecodeField(fields, FRAME_URIS).Some?
      invariant 2 <= i ==> DecodeField(fields, TRIGGER).Some?
      invariant copy == match i
                        case 0 => fields
                        case 1 => fields[FRAME_URIS := DecodeField(fields, FRAME_URIS).value]
                        case _ =>
                          var uris, trigger := DecodeField(fields, FRAME_URIS), DecodeField(fields, TRIGGER);
                          fields[FRAME_URIS := uris.value][TRIGGER := trigger.value]
    {
      var key := keys[i];
      assert DecodeField(copy, key) == DecodeField(fields, key);
      if key in copy && copy[key].Str? && copy[key].s != "" {
        var value := Loads(copy[key].s);
        if value.None? {
          return None;
        }
        copy := copy[key := value.value];
      } else if key !in copy || copy[key] == Null || copy[key] == Str("") {
        copy := copy[key := if key == FRAME_URIS then Arr([]) else Obj([])];
      } else {
        assert copy == copy[key := copy[key]];
      }
      i := i + 1;
    }
    if REGION !in copy || Falsy(copy[REGION]) {
      copy := copy[REGION := Str("")];
    } else {
      assert copy == copy[REGION := copy[REGION]];
    }
    return Some(copy);
  }

  /** None, the empty text or no value at all. */
  predicate Missing(fields: Fields, key: string) {
    key !in fields || fields[key] == Null || fields[key] == Str("")
  }

  /** What one of the two JSON fields becomes. */
  ghost predicate BecomesJson(fields: Fields, key: string, empty: Json, value: Json) {
    if Missing(fields, key) then value == empty
    else if fields[key].Str? then Loads(fields[key].s) == Some(value)
    else value == fields[key]
  }

  /**
   Decoding fills in an empty list, an empty dict and an empty text for missing frame URIs, trigger metadata and region,
   reads the texts of the first two, and leaves everything else as it is; it raises exactly on a text that is no JSON.
   */
  lemma DecodedFields(fields: Fields)
    ensures
      Decoded(fields).None?
      <==> exists key | key in {"frame_uris", "edge_trigger_metadata"} ::
             !Missing(fields, key) && fields[key].Str? && Loads(fields[key].s).None?
    ensures
      var decoded := Decoded(fields);
      var falsy := {Bool(false), Number("0"), Number("0.0"), Number("-0.0"), Arr([]), Obj([])};
      decoded.Some? ==>
        && decoded.value.Keys == fields.Keys + {"frame_uris", "edge_trigger_metadata", "region_id"}
        && BecomesJson(fields, "frame_uris", Arr([]), decoded.value["frame_uris"])
        && BecomesJson(fields, "edge_trigger_metadata", Obj([]), decoded.value["edge_trigger_metadata"])
        && decoded.value["region_id"]
           == (if Missing(fields, "region_id") || fields["region_id"] in falsy then Str("") else fields["region_id"])
        && (forall key | key in fields && key !in {"frame_uris", "edge_trigger_metadata", "region_id"} ::
              decoded.value[key] == fields[key])
  {
    assert FRAME_URIS in {"frame_uris", "edge_trigger_metadata"} && TRIGGER in {"frame_uris", "edge_trigger_metadata"};
  }

  /**
   Of the scalars that are stored as texts only a finite number is a JSON text, of itself: None, True, False and the
   other floats are not what json.loads reads.
   */
  lemma ScalarTexts(v: Json)
    requires Valid(v) && (v == Null || v.Bool? || v.Number?)
    ensures Loads(AsText(v)) == if v.Number? && NumberText(v.text) then Some(v) else None
  {
    if v.Number? && NumberText(v.text) {
      NumberIsDumped(v);
    } else {
      NoJsonText(AsText(v));
    }
  }

  /** No JSON text starts like this. */
  lemma NoJsonStart(text: string)
    requires |text| > 0 && text[0] in {'T', 'F', 'i'}
    ensures Loads(text) == None
  {
    assert NumberRun(text) == 0 && text[..0] == "";
  }

  lemma OtherLiteral(text: string)
    requires text == "None" || text == "nan"
    ensures Loads(text) == None
  {
    assert text[1] == 'o' || text[1] == 'a';
    assert "NaN"[1] == 'a' && "NaN"[2] == 'N' && "null"[1] == 'u';
  }

  lemma NegativeInfinityText(text: string)
    requires text == "-inf"
    ensures Loads(text) == None
  {
    assert NumberRun(text[1..]) == 0;
    assert text[..1] == "-" && "-"[1..] == "";
  }

  /** Python's own words for the scalars that have others in JSON. */
  lemma NoJsonText(text: string)
    requires text in {"None", "True", "False", "nan", "inf", "-inf"}
    ensures Loads(text) == None
  {
    if text == "None" || text == "nan" {
      OtherLiteral(text);
    } else if text == "-inf" {
      NegativeInfinityText(text);
    } else {
      NoJsonStart(text);
    }
  }

  lemma NumberIsDumped(v: Json)
    requires v.Number? && NumberText(v.text)
    ensures AsText(v) == v.text == Dumps(v) && Loads(Dumps(v)) == Some(v)
  {
    LoadsUndoesDumps(v);
    assert v.text + [] == v.text;
    assert v.text != "NaN" && v.text != "Infinity" && v.text != "-Infinity";
  }

  /******* Round trips *******/

  /**
   The fields that ingestion queues: a list of frame URIs, a dict of trigger metadata, and texts; the region's is
   empty when there is none.
   */
  ghost predicate IsEvent(fields: Fields) {
    && {FRAME_URIS, TRIGGER, REGION} <= fields.Keys
    && Valid(fields[FRAME_URIS]) && fields[FRAME_URIS].Arr? && Valid(fields[TRIGGER]) && fields[TRIGGER].Obj?
    && forall key | key in fields && key != FRAME_URIS && key != TRIGGER :: fields[key].Str?
  }

  lemma FieldDecodes(event: Fields, key: string)
    requires key in event && Valid(event[key]) && (event[key].Arr? || event[key].Obj?)
    ensures DecodeField(Encoded(event), key) == Some(event[key])
  {
    LoadsUndoesDumps(event[key]);
    WriteStarts(event[key], []);
  }

  /** Decoding what xadd encodes gives back the job, whatever its lists, dicts and texts hold. */
  lemma DecodeUndoesEncode(event: Fields)
    requires IsEvent(event)
    ensures Decoded(Encoded(event)) == Some(event)
  {
    var encoded := Encoded(event);
    FieldDecodes(event, FRAME_URIS);
    FieldDecodes(event, TRIGGER);
    assert event[REGION].Str? && DecodeRegion(encoded) == event[REGION];
    var decoded := encoded[FRAME_URIS := event[FRAME_URIS]][TRIGGER := event[TRIGGER]][REGION := event[REGION]];
    assert decoded.Keys == event.Keys;
    forall key | key in event ensures decoded[key] == event[key] {
      if key != FRAME_URIS && key != TRIGGER {
        assert event[key].Str?;
      }
    }
    assert decoded == event;
  }

  /** Fields that are texts already are stored as they are. */
  lemma EncodeKeepsTexts(fields: Fields)
    requires forall key | key in fields :: fields[key].Str?
    ensures Encoded(fields) == fields
  {
  }

  /** What the dead-letter stream stores for a message whose fields were delivered as `fields`. */
  function DeadLetter(fields: Fields, error: string): Fields {
    Encoded(fields[ERROR := Str(error)])
  }

  /** A dead letter without its error is the message as it was delivered, and decodes to the job that was queued. */
  lemma DeadLetterDecodesToJob(event: Fields, error: string)
    requires IsEvent(event) && ERROR !in event
    ensures DeadLetter(Encoded(event), error) - {ERROR} == Encoded(event)
    ensures Decoded(DeadLetter(Encoded(event), error) - {ERROR}) == Some(event)
    ensures Decoded(DeadLetter(Encoded(event), error)) == Some(event[ERROR := Str(error)])
  {
    var encoded, failed := Encoded(event), event[ERROR := Str(error)];
    EncodeKeepsTexts(encoded[ERROR := Str(error)]);
    assert encoded[ERROR := Str(error)] - {ERROR} == encoded;
    DecodeUndoesEncode(event);
    EncodeOneMore(event, error);
    assert IsEvent(failed);
    DecodeUndoesEncode(failed);
  }

  lemma EncodeOneMore(fields: Fields, error: string)
    ensures Encoded(fields[ERROR := Str(error)]) == Encoded(fields)[ERROR := Str(error)]
  {
  }

  /******* Decoding twice *******/

  lemma ReadLonger(text: string)
    ensures var v := Loads(text); v.Some? && v.value.Str? ==> |v.value.s| < |text|
  {
  }

  /** The field is a text that starts like a JSON string or like null. */
  predicate StringOrNullText(fields: Fields, key: string) {
    && key in fields && fields[key].Str?
    && var text := SkipSpace(fields[key].s);
       |text| > 0 && (text[0] == '"' || "null" <= text)
  }

  lemma FieldDecodesTwiceIff(fields: Fields, once: Fields, key: string)
    requires key == FRAME_URIS || key == TRIGGER
    requires DecodeField(fields, key).Some? && key in once && once[key] == DecodeField(fields, key).value
    ensures DecodeField(once, key) == Some(once[key]) <==> !StringOrNullText(fields, key)
  {
    if once[key].Str? {
      ReadLonger(once[key].s);
    }
  }

  /**
   Decoding decoded fields again leaves them as they are if and only if neither JSON field is, after white space, a JSON
   string or null.
   */
  lemma DecodeTwiceIff(fields: Fields)
    requires Decoded(fields).Some?
    ensures
      Decoded(Decoded(fields).value) == Decoded(fields)
      <==> !StringOrNullText(fields, FRAME_URIS) && !StringOrNullText(fields, TRIGGER)
  {
    var once := Decoded(fields).value;
    var uris, trigger := DecodeField(fields, FRAME_URIS).value, DecodeField(fields, TRIGGER).value;
    assert once[FRAME_URIS] == uris && once[TRIGGER] == trigger;
    FieldDecodesTwiceIff(fields, once, FRAME_URIS);
    FieldDecodesTwiceIff(fields, once, TRIGGER);
    assert DecodeRegion(once) == once[REGION];
    if !StringOrNullText(fields, FRAME_URIS) && !StringOrNullText(fields, TRIGGER) {
      assert once[FRAME_URIS := uris][TRIGGER := trigger][REGION := once[REGION]] == once;
    } else if Decoded(once).Some? {
      var twice := Decoded(once).value;
      assert twice[FRAME_URIS] == DecodeField(once, FRAME_URIS).value;
      assert twice[TRIGGER] == DecodeField(once, TRIGGER).value;
    }
  }

  /**
   A frame_uris text that is itself a JSON string of a JSON list: the second decoding turns the string into the
   list.
   */
  lemma DecodeTwiceDiffers() returns (fields: Fields)
    ensures Decoded(fields).Some? && Decoded(Decoded(fields).value).Some?
    ensures Decoded(Decoded(fields).value) != Decoded(fields)
  {
    fields := map[FRAME_URIS := Str(Dumps(Str(Dumps(Arr([])))))];
    LoadsUndoesDumps(Str(Dumps(Arr([]))));
    LoadsUndoesDumps(Arr([]));
    assert |Dumps(Str(Dumps(Arr([]))))| > 0 && |Dumps(Arr([]))| > 0;
    DecodeTwiceIff(fields);
  }
}
