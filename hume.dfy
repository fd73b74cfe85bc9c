/**
  * The Hume streaming client (`HumeClient`): the decoder that turns one
  * upstream socket message into emotion and error events, and the counter
  * arithmetic of its reconnect backoff.
  *
  * `JSON.parse` is replaced by its result: a message arrives either as
  * `Malformed` text or as a parsed JSON value. The events `handleMessage`
  * emits, in order, are its result.
  */
module HumeDecoder {
  import opened EmotionScores

  /** A parsed JSON value; an object keeps its members in textual order. */
  datatype Json =
    | JNull
    | JBool(b: bool)
    | JNumber(n: real)
    | JString(str: string)
    | JArray(items: seq<Json>)
    | JObject(members: seq<(string, Json)>)

  /** The outcome of `JSON.parse(raw)`. */
  datatype Parse = Malformed | Parsed(value: Json)

  /** `HumeEmotionMessage` */
  datatype EmotionMessage = EmotionMessage(emotions: Scores, valence: Option<real>, arousal: Option<real>)

  /** An `"emotion"` event with its payload, or an `"error"` event with the reason it carries. */
  datatype Event = EmotionEvent(message: EmotionMessage) | ErrorEvent(reason: Json)

  /** The events one message emits, or the TypeError of reading a property of `null`. */
  datatype Outcome = Emitted(events: seq<Event>) | Threw

  /** The value of the last member named `key` (the one `JSON.parse` keeps). */
  function LastMember(members: seq<(string, Json)>, key: string): Option<Json>
  {
    if members == [] then None
    else if members[|members| - 1].0 == key then Some(members[|members| - 1].1)
    else LastMember(members[..|members| - 1], key)
  }

  /**
    * `v[key]` for a key that is neither an index nor `length`: a member of an
    * object, and `undefined` (None) for every other value.
    */
  function Field(v: Json, key: string): Option<Json>
  {
    match v
    case JObject(members) => LastMember(members, key)
    case _ => None
  }

  /** `!!v && typeof v === "object"`: arrays and objects, not `null`. */
  predicate ObjectLike(v: Json)
  {
    v.JArray? || v.JObject?
  }

  /** `String(parsed.message ?? "Hume error")`, before the conversion to a string. */
  function ErrorReason(message: Option<Json>): (r: Json)
    ensures message.Some? && !message.value.JNull? ==> r == message.value
    ensures message.None? || message.value.JNull? ==> r == JString("Hume error")
  {
    match message
    case Some(m) => if m.JNull? then JString("Hume error") else m
    case None => JString("Hume error")
  }

  /** `parsed.type === "error"` */
  predicate IsError(v: Json)
  {
    Field(v, "type") == Some(JString("error"))
  }

  /** `model && typeof model === "string" && model !== "prosody" && model !== "expressive"` */
  predicate SkipModel(model: Option<Json>)
  {
    && model.Some? && model.value.JString?
    && model.value.str != "" && model.value.str != "prosody" && model.value.str != "expressive"
  }

  /** `extractNumber(obj, key)`: the member when it is a number, otherwise `undefined`. */
  function ExtractNumber(obj: Json, key: string): (r: Option<real>)
    ensures r.Some? <==> Field(obj, key).Some? && Field(obj, key).value.JNumber?
    ensures r.Some? ==> Field(obj, key) == Some(JNumber(r.value))
  {
    if !ObjectLike(obj) then None
    else match Field(obj, key)
      case Some(JNumber(x)) => Some(x)
      case _ => None
  }

  /** The name and score of an emotion item, when the item is an object with a string name and a numeric score. */
  function ItemScore(item: Json): Option<(string, real)>
  {
    if !ObjectLike(item) then None
    else match (Field(item, "name"), Field(item, "score"))
      case (Some(JString(name)), Some(JNumber(score))) => Some((name, score))
      case _ => None
  }

  /** The name/score pairs of the items that have one, in item order. */
  function ValidItems(items: seq<Json>): seq<(string, real)>
  {
    if items == [] then []
    else
      var last := ItemScore(items[|items| - 1]);
      ValidItems(items[..|items| - 1]) + (if last.Some? then [last.value] else [])
  }

  /** The event one prediction contributes, if any. */
  function EventOf(prediction: Json): Option<Event>
  {
    if !ObjectLike(prediction) || SkipModel(Field(prediction, "model")) then None
    else match Field(prediction, "emotions")
      case Some(JArray(items)) =>
        var scores := Assign(ValidItems(items));
        if |scores| > 0 then
          Some(EmotionEvent(EmotionMessage(scores, ExtractNumber(prediction, "valence"), ExtractNumber(prediction, "arousal"))))
        else None
      case _ => None
  }

  /** The events of the predictions, in prediction order. */
  function PredictionEvents(ps: seq<Json>): seq<Event>
  {
    if ps == [] then []
    else
      var e := EventOf(ps[|ps| - 1]);
      PredictionEvents(ps[..|ps| - 1]) + (if e.Some? then [e.value] else [])
  }

  /** An emotion event whose scores form a record with at least one key. */
  predicate WellFormed(e: Event)
  {
    e.EmotionEvent? && |e.message.emotions| > 0 && UniqueKeys(e.message.emotions)
  }

  lemma {:induction false} PredictionEventsWellFormed(ps: seq<Json>)
    ensures |PredictionEvents(ps)| <= |ps|
    ensures forall i :: 0 <= i < |PredictionEvents(ps)| ==> WellFormed(PredictionEvents(ps)[i])
  {
    if ps != [] {
      PredictionEventsWellFormed(ps[..|ps| - 1]);
      var p := ps[|ps| - 1];
      if EventOf(p).Some? {
        assert Field(p, "emotions").Some? && Field(p, "emotions").value.JArray?;
        AssignIsRecord(ValidItems(Field(p, "emotions").value.items));
      }
    }
  }

  /**
    * The events `handleMessage` emits for one message: none for malformed
    * text, a TypeError for `null`, exactly one error event for an error
    * message, and otherwise at most one well-formed emotion event per
    * element of `predictions`, none when that is not an array.
    */
  function DecodeMessage(input: Parse): (r: Outcome)
    ensures r.Threw? <==> input == Parsed(JNull)
    ensures input.Malformed? ==> r == Emitted([])
    ensures input.Parsed? && IsError(input.value) ==>
              r == Emitted([ErrorEvent(ErrorReason(Field(input.value, "message")))])
    ensures input.Parsed? && !IsError(input.value) && r.Emitted? ==>
              forall i :: 0 <= i < |r.events| ==> WellFormed(r.events[i])
    ensures input.Parsed? && !IsError(input.value) && r.Emitted? ==>
              match Field(input.value, "predictions")
              case Some(JArray(ps)) => |r.events| <= |ps|
              case _ => r.events == []
    ensures input.Parsed? && !input.value.JNull? && !IsError(input.value) ==>
              match Field(input.value, "predictions")
              case Some(JArray(ps)) => r == Emitted(PredictionEvents(ps))
              case _ => r == Emitted([])
  {
    match input
    case Malformed => Emitted([])
    case Parsed(v) =>
      if v.JNull? then Threw
      else if IsError(v) then Emitted([ErrorEvent(ErrorReason(Field(v, "message")))])
      else match Field(v, "predictions")
        case Some(JArray(ps)) =>
          PredictionEventsWellFormed(ps);
          Emitted(PredictionEvents(ps))
        case _ => Emitted([])
  }

  /** Predictions contribute their events independently and in order. */
  lemma {:induction false} PredictionEventsConcat(a: seq<Json>, b: seq<Json>)
    ensures PredictionEvents(a + b) == PredictionEvents(a) + PredictionEvents(b)
  {
    if b == [] {
      assert a + b == a;
    } else {
      var init := b[..|b| - 1];
      assert (a + b)[..|a + b| - 1] == a + init;
      assert (a + b)[|a + b| - 1] == b[|b| - 1];
      PredictionEventsConcat(a, init);
    }
  }

  /** The events of a message list, one prediction after the other. */
  lemma PredictionEventsOne(p: Json)
    ensures PredictionEvents([p]) == if EventOf(p).Some? then [EventOf(p).value] else []
  {
    assert [p][..0] == [];
  }

  /**
    * A prediction yields an event exactly when it is an object, its model is
    * not a non-empty string other than "prosody" and "expressive", its
    * `emotions` is an array and one of the items has a string name and a
    * numeric score. The event carries the record those items assign and the
    * numeric `valence` and `arousal`, absent when not numbers.
    */
  lemma EventOfSpec(p: Json)
    ensures EventOf(p).Some? <==>
              && ObjectLike(p) && !SkipModel(Field(p, "model"))
              && Field(p, "emotions").Some? && Field(p, "emotions").value.JArray?
              && |ValidItems(Field(p, "emotions").value.items)| > 0
    ensures EventOf(p).Some? ==>
              EventOf(p).value == EmotionEvent(EmotionMessage(
                Assign(ValidItems(Field(p, "emotions").value.items)),
                ExtractNumber(p, "valence"), ExtractNumber(p, "arousal")))
  {
    if ObjectLike(p) && Field(p, "emotions").Some? && Field(p, "emotions").value.JArray? {
      AssignNonEmpty(ValidItems(Field(p, "emotions").value.items));
    }
  }

  /** The record assigned from some pairs has a key exactly when there is a pair. */
  lemma AssignNonEmpty(ps: Scores)
    ensures |Assign(ps)| > 0 <==> |ps| > 0
  {
    if |ps| > 0 {
      assert Keys(ps)[|ps| - 1] in Dedup(Keys(ps));
    }
  }

  /** A pair is kept exactly when some item carries it. */
  lemma {:induction false} ValidItemsMembers(items: seq<Json>, pair: (string, real))
    ensures pair in ValidItems(items) <==> exists j :: 0 <= j < |items| && ItemScore(items[j]) == Some(pair)
  {
    if items != [] {
      var init := items[..|items| - 1];
      ValidItemsMembers(init, pair);
      assert forall j :: 0 <= j < |init| ==> init[j] == items[j];
    }
  }

  /**
    * The scores of a prediction: every name carried by a valid item is a key,
    * and reads back the score of the LAST valid item with that name.
    */
  lemma ScoresOfItems(items: seq<Json>, name: string)
    ensures Get(Assign(ValidItems(items)), name) == LastValue(ValidItems(items), name)
    ensures name in Keys(Assign(ValidItems(items))) <==> exists x :: (name, x) in ValidItems(items)
  {
    var ps := ValidItems(items);
    if name in Keys(Assign(ps)) {
      assert name in Keys(ps);
      var i :| 0 <= i < |Keys(ps)| && Keys(ps)[i] == name;
      assert (name, ps[i].1) in ps;
    }
    if exists x :: (name, x) in ps {
      var x :| (name, x) in ps;
      var i :| 0 <= i < |ps| && ps[i] == (name, x);
      assert Keys(ps)[i] == name;
    }
  }

  /** Malformed text and a non-array `predictions` are both silent. */
  lemma SilentMessages()
    ensures DecodeMessage(Malformed) == Emitted([])
    ensures DecodeMessage(Parsed(JObject([("predictions", JString("none"))]))) == Emitted([])
    ensures DecodeMessage(Parsed(JNumber(3.0))) == Emitted([])
    ensures DecodeMessage(Parsed(JNull)) == Threw
  {
  }

  /** An error message without a usable `message` carries "Hume error". */
  lemma ErrorMessages()
    ensures DecodeMessage(Parsed(JObject([("type", JString("error"))])))
            == Emitted([ErrorEvent(JString("Hume error"))])
    ensures DecodeMessage(Parsed(JObject([("type", JString("error")), ("message", JString("quota"))])))
            == Emitted([ErrorEvent(JString("quota"))])
  {
  }

  /** Which `model` members let a prediction through. */
  lemma ModelFilter()
    ensures !SkipModel(None) && !SkipModel(Some(JNull)) && !SkipModel(Some(JNumber(1.0)))
    ensures !SkipModel(Some(JString(""))) && !SkipModel(Some(JString("prosody")))
    ensures !SkipModel(Some(JString("expressive")))
    ensures SkipModel(Some(JString("language")))
  {
  }

  /** Items that are not objects, or lack a string name and a numeric score, are dropped. */
  lemma ValidItemsExample()
    ensures ValidItems([JObject([("name", JString("joy")), ("score", JNumber(0.1))]),
                        JObject([("name", JString("sad")), ("score", JNumber(0.4))]),
                        JNull,
                        JObject([("name", JString("joy")), ("score", JString("0.7"))])])
            == [("joy", 0.1), ("sad", 0.4)]
  {
    var items := [JObject([("name", JString("joy")), ("score", JNumber(0.1))]),
                  JObject([("name", JString("sad")), ("score", JNumber(0.4))]),
                  JNull,
                  JObject([("name", JString("joy")), ("score", JString("0.7"))])];
    assert ItemScore(items[0]) == Some(("joy", 0.1));
    assert ItemScore(items[1]) == Some(("sad", 0.4));
    assert ItemScore(items[3]) == None;
    assert items[..1][..0] == [];
    assert ValidItems(items[..1]) == [("joy", 0.1)];
    assert items[..2][..1] == items[..1];
    assert ValidItems(items[..2]) == [("joy", 0.1), ("sad", 0.4)];
    assert items[..3][..2] == items[..2];
    assert items[..3] == items[..|items| - 1];
  }

  /** A later item with the same name overwrites an earlier one without moving it. */
  lemma DuplicateNameExample()
    ensures Assign([("joy", 0.1), ("sad", 0.4), ("joy", 0.7)]) == [("joy", 0.7), ("sad", 0.4)]
  {
    assert [("joy", 0.1), ("sad", 0.4), ("joy", 0.7)][..2] == [("joy", 0.1), ("sad", 0.4)];
    assert [("joy", 0.1), ("sad", 0.4)][..1] == [("joy", 0.1)];
    assert Assign([("joy", 0.1)]) == [("joy", 0.1)];
    assert Assign([("joy", 0.1), ("sad", 0.4)]) == [("joy", 0.1), ("sad", 0.4)];
  }

  /** 2 to the power `n`. */
  function Pow2(n: nat): (r: nat)
    ensures r >= 1
  {
    if n == 0 then 1 else 2 * Pow2(n - 1)
  }

  lemma {:induction false} Pow2Monotone(m: nat, n: nat)
    requires m <= n
    ensures Pow2(m) <= Pow2(n)
  {
    if m < n {
      Pow2Monotone(m, n - 1);
    }
  }

  /** `Math.min(1000 * 2 ** attempts, 15000)` */
  function ReconnectDelay(attempts: nat): (delay: int)
    ensures 1000 <= delay <= 15000
    ensures delay == 15000 || delay == 1000 * Pow2(attempts)
  {
    if 1000 * Pow2(attempts) <= 15000 then 1000 * Pow2(attempts) else 15000
  }

  /** The delay never decreases as attempts accumulate. */
  lemma DelayMonotone(m: nat, n: nat)
    requires m <= n
    ensures ReconnectDelay(m) <= ReconnectDelay(n)
  {
    Pow2Monotone(m, n);
  }

  /** From the fifth attempt on, the delay stays at its cap. */
  lemma DelayCapped(n: nat)
    requires n >= 4
    ensures ReconnectDelay(n) == 15000
  {
    Pow2Monotone(4, n);
  }

  lemma DelaySchedule()
    ensures ReconnectDelay(0) == 1000 && ReconnectDelay(1) == 2000
    ensures ReconnectDelay(2) == 4000 && ReconnectDelay(3) == 8000
  {
  }

  /** The client's own state; the socket, the URL and the timers are not modelled. */
  class HumeClient {
    var reconnectAttempts: nat
    var isClosed: bool

    constructor ()
      ensures reconnectAttempts == 0 && !isClosed
    {
      reconnectAttempts := 0;
      isClosed := false;
    }

    /** The state change of `connect`; opening the socket is not modelled. */
    method Connect()
      modifies this
      ensures !isClosed && reconnectAttempts == old(reconnectAttempts)
    {
      isClosed := false;
    }

    /** The state change of `close`. */
    method Close()
      modifies this
      ensures isClosed && reconnectAttempts == old(reconnectAttempts)
    {
      isClosed := true;
    }

    /** The `open` handler: a successful connection resets the backoff. */
    method OnOpen()
      modifies this
      ensures reconnectAttempts == 0 && isClosed == old(isClosed)
    {
      reconnectAttempts := 0;
    }

    /** `scheduleReconnect`: the delay of the timer it sets, and one more attempt. */
    method ScheduleReconnect() returns (delay: int)
      modifies this
      ensures delay == ReconnectDelay(old(reconnectAttempts))
      ensures reconnectAttempts == old(reconnectAttempts) + 1
      ensures isClosed == old(isClosed)
    {
      delay := ReconnectDelay(reconnectAttempts);
      reconnectAttempts := reconnectAttempts + 1;
    }

    /** The `close` handler: a reconnect is scheduled unless the client was closed on purpose. */
    method OnClose() returns (delay: Option<int>)
      modifies this
      ensures old(isClosed) ==> delay == None && reconnectAttempts == old(reconnectAttempts)
      ensures !old(isClosed) ==> delay == Some(ReconnectDelay(old(reconnectAttempts)))
                                 && reconnectAttempts == old(reconnectAttempts) + 1
      ensures isClosed == old(isClosed)
    {
      if !isClosed {
        var d := ScheduleReconnect();
        delay := Some(d);
      } else {
        delay := None;
      }
    }

    /** The innermost loop of `handleMessage`: `scores[name] = score` for every valid item. */
    method ItemScores(items: seq<Json>) returns (scores: Scores)
      ensures scores == Assign(ValidItems(items))
    {
      scores := [];
      for j := 0 to |items|
        invariant scores == Assign(ValidItems(items[..j]))
      {
        var item := items[j];
        ValidItemsStep(items, j);
        if ObjectLike(item) {
          var name := Field(item, "name");
          var score := Field(item, "score");
          if name.Some? && name.value.JString? && score.Some? && score.value.JNumber? {
            scores := Put(scores, name.value.str, score.value.n);
          }
        }
      }
      assert items[..|items|] == items;
    }

    /** The inner loop of `handleMessage`: the event of one prediction. */
    method PredictionEvent(prediction: Json) returns (e: Option<Event>)
      ensures e == EventOf(prediction)
    {
      if !ObjectLike(prediction) {
        return None;
      }
      var model := Field(prediction, "model");
      if SkipModel(model) {
        return None;
      }
      var emotions := Field(prediction, "emotions");
      if !(emotions.Some? && emotions.value.JArray?) {
        return None;
      }
      var scores := ItemScores(emotions.value.items);
      var valence := ExtractNumber(prediction, "valence");
      var arousal := ExtractNumber(prediction, "arousal");
      if |scores| > 0 {
        return Some(EmotionEvent(EmotionMessage(scores, valence, arousal)));
      }
      return None;
    }

    /** `handleMessage`: the events emitted for one message, in order. */
    method HandleMessage(input: Parse) returns (out: Outcome)
      ensures out == DecodeMessage(input)
    {
      if input.Malformed? {
        return Emitted([]);
      }
      var parsed := input.value;
      if parsed.JNull? {
        return Threw;
      }
      if Field(parsed, "type") == Some(JString("error")) {
        return Emitted([ErrorEvent(ErrorReason(Field(parsed, "message")))]);
      }
      var predictions := Field(parsed, "predictions");
      if !(predictions.Some? && predictions.value.JArray?) {
        return Emitted([]);
      }
      var ps := predictions.value.items;
      var events: seq<Event> := [];
      for i := 0 to |ps|
        invariant events == PredictionEvents(ps[..i])
      {
        var e := PredictionEvent(ps[i]);
        assert ps[..i + 1][..i] == ps[..i];
        if e.Some? {
          events := events + [e.value];
        }
      }
      assert ps[..|ps|] == ps;
      return Emitted(events);
    }
  }

  lemma AssignSnoc(ps: Scores, p: (string, real))
    ensures Assign(ps + [p]) == Put(Assign(ps), p.0, p.1)
  {
    assert (ps + [p])[..|ps|] == ps;
  }

  lemma ValidItemsStep(items: seq<Json>, j: nat)
    requires j < |items|
    ensures ItemScore(items[j]).Some? ==>
              Assign(ValidItems(items[..j + 1])) == Put(Assign(ValidItems(items[..j])), ItemScore(items[j]).value.0, ItemScore(items[j]).value.1)
    ensures ItemScore(items[j]).None? ==> ValidItems(items[..j + 1]) == ValidItems(items[..j])
  {
    assert items[..j + 1][..j] == items[..j];
    if ItemScore(items[j]).Some? {
      AssignSnoc(ValidItems(items[..j]), ItemScore(items[j]).value);
    }
  }
}
