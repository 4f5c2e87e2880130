/**
 The decisions StepCounterService makes around one upload: whether a flushed
 batch is posted at all, whether the reply counts, and which step delta the
 reply body yields. The HTTP exchange and the JSON parser are not modelled;
 their results arrive as an Outcome.
 */
module UploadClient {
  import opened Wrappers
  import opened JavaInt

  /** HttpURLConnection.HTTP_OK */
  const HTTP_OK: int := 200

  /** The name of the step-count field of the reply body */
  const STEPS_KEY: string := "steps"

  /**
   A value of the parsed reply object, as JSONObject.getInt sees it:
   IntField(n) is a value getInt converts to n (an integer, a number it
   truncates or narrows, or a numeric string); OtherField is a value getInt
   rejects by throwing (a boolean, null, a non-numeric string, an object or an
   array). The conversion itself is not modelled.
   */
  datatype Field = IntField(n: Int32) | OtherField

  /**
   The reply body: the parsed JSON object, or None when reading or parsing the
   body threw.
   */
  type Body = Option<map<string, Field>>

  /** What one posted batch got back from the network */
  datatype Outcome =
    | TransportFailure                          // an exception while connecting, writing or reading the status
    | Response(code: int, body: Body)

  /**
   readStepsFromResponse: the value getInt gives for the `steps` field when the
   body parses and has that field, and 0 when the body fails to parse, has no
   `steps` field, or getInt rejects its value.
   */
  function ReadSteps(body: Body): (d: Int32)
    ensures body.None? ==> d == 0
    ensures body.Some? && STEPS_KEY !in body.value ==> d == 0
    ensures body.Some? && STEPS_KEY in body.value && body.value[STEPS_KEY].OtherField? ==> d == 0
    ensures body.Some? && STEPS_KEY in body.value && body.value[STEPS_KEY].IntField? ==>
              d == body.value[STEPS_KEY].n
  {
    match body
    case None => 0
    case Some(obj) =>
      if STEPS_KEY in obj then
        match obj[STEPS_KEY]
        case IntField(n) => n
        case OtherField => 0
      else 0
  }

  /** The reply body a step-estimation server sends for a batch with `n` steps: `{"steps": n}` */
  function StepsReply(n: Int32): Body
  {
    Some(map[STEPS_KEY := IntField(n)])
  }

  /** Reading the server's reply gives back exactly the step count it carries */
  lemma ReadStepsRoundTrip(n: Int32, extra: map<string, Field>)
    ensures ReadSteps(StepsReply(n)) == n
    ensures ReadSteps(Some(extra[STEPS_KEY := IntField(n)])) == n
  {
  }

  /** Fields other than `steps` never influence the delta */
  lemma ReadStepsIgnoresOtherFields(obj: map<string, Field>, key: string, f: Field)
    requires key != STEPS_KEY
    ensures ReadSteps(Some(obj[key := f])) == ReadSteps(Some(obj))
  {
  }

  /**
   The body of the upload thread, up to the call to updateSteps: the step delta
   to apply, or None when the batch is dropped. A non-significant batch is never
   posted; a transport failure or a status other than 200 drops the batch; a
   200 reply always applies a delta, 0 when the body has no usable count.
   */
  function Gate(significant: bool, outcome: Outcome): (d: Option<Int32>)
    ensures d.Some? <==> significant && outcome.Response? && outcome.code == HTTP_OK
    ensures d.Some? ==> d.value == ReadSteps(outcome.body)
  {
    if !significant then None
    else
      match outcome
      case TransportFailure => None
      case Response(code, body) => if code == HTTP_OK then Some(ReadSteps(body)) else None
  }
}
