/** The GitHub Models provider: the input schema of a generation request,
    the choice of bearer token, the request sent, and the defaults applied
    to the fields of the reply. The HTTP exchange itself is a parameter. */
module ModelsProvider {
  import opened Wrappers
  import opened Text
  import opened Schema

  const AllowedModels := ["gpt-4o-mini", "gpt-4.1-mini", "o1-mini"]
  const DefaultModel := "gpt-4o-mini"
  const DefaultMaxTokens := 800
  const DefaultTemperature: real := 0.3
  const SystemPrompt :=
    "You are a precise skill author. Return a markdown skill doc with YAML frontmatter and practical steps."

  datatype TokenMode = Platform | Byo

  /** A request body that passed `generateSkillInputSchema`. */
  datatype GenerateInput = GenerateInput(
    prompt: string,
    model: string,
    maxTokens: int,
    temperature: real,
    tokenMode: TokenMode,
    byokToken: Option<string>)

  /** The schema's bounds: a prompt of 10..4000 UTF-16 code units, one of
      the allowed models, an integer token budget of 128..2000, a
      temperature in [0, 1]. */
  predicate WithinBounds(x: GenerateInput) {
    && 10 <= Utf16Length(x.prompt) <= 4000
    && x.model in AllowedModels
    && 128 <= x.maxTokens <= 2000
    && 0.0 <= x.temperature <= 1.0
  }

  /** The names of the token modes, as the request spells them. */
  const ModeNames := ["PLATFORM", "BYO"]

  function ModeNamed(name: string): (mode: TokenMode)
    requires name in ModeNames
    ensures ModeName(mode) == name
  {
    if name == "BYO" then Byo else Platform
  }

  function ModeName(mode: TokenMode): (name: string)
    ensures name in ModeNames
  {
    match mode
    case Platform => "PLATFORM"
    case Byo => "BYO"
  }

  /** Each key of the schema checked on its own: the value, or `None` when
      the check fails. */
  datatype GenerateFields = GenerateFields(
    prompt: Option<string>,
    model: Option<string>,
    maxTokens: Option<int>,
    temperature: Option<real>,
    tokenMode: Option<string>,
    byokToken: Option<Option<string>>)

  function CheckGenerate(f: map<string, Json>): GenerateFields {
    GenerateFields(
      RequiredString(f, "prompt", 10, 4000),
      DefaultedEnum(f, "model", AllowedModels, DefaultModel),
      DefaultedInt(f, "maxTokens", 128, 2000, DefaultMaxTokens),
      DefaultedNumber(f, "temperature", 0.0, 1.0, DefaultTemperature),
      DefaultedEnum(f, "tokenMode", ModeNames, "PLATFORM"),
      OptionalString(f, "byokToken"))
  }

  predicate GeneratePassed(v: GenerateFields) {
    v.prompt.Some? && v.model.Some? && v.maxTokens.Some? && v.temperature.Some? && v.tokenMode.Some?
    && v.byokToken.Some?
  }

  /** The checks in schema order, for the issue list. */
  function GenerateOutcomes(v: GenerateFields): (checks: seq<(string, bool)>)
    ensures (forall i :: 0 <= i < |checks| ==> checks[i].1) <==> GeneratePassed(v)
  {
    var checks := [("prompt", v.prompt.Some?), ("model", v.model.Some?), ("maxTokens", v.maxTokens.Some?),
                   ("temperature", v.temperature.Some?), ("tokenMode", v.tokenMode.Some?),
                   ("byokToken", v.byokToken.Some?)];
    assert !GeneratePassed(v) ==> exists i :: 0 <= i < |checks| && !checks[i].1 by {
      if v.prompt.None? { assert !checks[0].1; }
      else if v.model.None? { assert !checks[1].1; }
      else if v.maxTokens.None? { assert !checks[2].1; }
      else if v.temperature.None? { assert !checks[3].1; }
      else if v.tokenMode.None? { assert !checks[4].1; }
      else if v.byokToken.None? { assert !checks[5].1; }
    }
    checks
  }

  /** `generateSkillInputSchema.safeParse`: the validated input, or the keys
      whose check failed ("" for a body that is not an object). A present
      key holds the value accepted; an absent one takes its default. */
  function ValidateGenerate(body: Json): (r: Result<GenerateInput, seq<string>>)
    ensures r.Success? ==> WithinBounds(r.value) && body.JObj?
    ensures !body.JObj? ==> r == Failure([""])
    ensures r.Failure? ==> |r.error| > 0
    ensures r.Success? ==>
      var f := body.fields;
      && "prompt" in f && f["prompt"] == JStr(r.value.prompt)
      && ("model" !in f ==> r.value.model == DefaultModel)
      && ("model" in f ==> f["model"] == JStr(r.value.model))
      && ("maxTokens" !in f ==> r.value.maxTokens == DefaultMaxTokens)
      && ("maxTokens" in f ==> f["maxTokens"] == JNum(r.value.maxTokens as real))
      && ("temperature" !in f ==> r.value.temperature == DefaultTemperature)
      && ("temperature" in f ==> f["temperature"] == JNum(r.value.temperature))
      && ("tokenMode" !in f ==> r.value.tokenMode == Platform)
      && ("tokenMode" in f ==> f["tokenMode"] == JStr(ModeName(r.value.tokenMode)))
      && ("byokToken" !in f ==> r.value.byokToken.None?)
      && ("byokToken" in f ==> r.value.byokToken.Some? && f["byokToken"] == JStr(r.value.byokToken.value))
  {
    if !body.JObj? then Failure([""])
    else
      var v := CheckGenerate(body.fields);
      if GeneratePassed(v) then
        Success(GenerateInput(v.prompt.value, v.model.value, v.maxTokens.value, v.temperature.value,
                              ModeNamed(v.tokenMode.value), v.byokToken.value))
      else
        Failure(FailedKeys(GenerateOutcomes(v)))
  }

  /** The checks carry six different keys. */
  lemma GenerateKeysDistinct(v: GenerateFields)
    ensures DistinctKeys(GenerateOutcomes(v))
  {
  }

  /** A refused object names the prompt exactly when it is missing or out of
      bounds, and a model or token budget exactly when one is present that
      the schema refuses; an absent optional key is never named. */
  lemma ValidateGenerateNamesFailures(body: Json)
    requires body.JObj? && ValidateGenerate(body).Failure?
    ensures var keys := ValidateGenerate(body).error;
      var f := body.fields;
      && ("prompt" in keys <==> !("prompt" in f && BoundedString(f["prompt"], 10, 4000)))
      && ("model" in keys <==> "model" in f && !(f["model"].JStr? && f["model"].s in AllowedModels))
      && ("maxTokens" in keys <==>
            "maxTokens" in f &&
            !(f["maxTokens"].JNum? && f["maxTokens"].n == f["maxTokens"].n.Floor as real &&
              128.0 <= f["maxTokens"].n <= 2000.0))
  {
    var c := GenerateOutcomes(CheckGenerate(body.fields));
    GenerateKeysDistinct(CheckGenerate(body.fields));
    FailedKeyNamed(c, 0);
    FailedKeyNamed(c, 1);
    FailedKeyNamed(c, 2);
  }

  /** A refused object names the temperature, the token mode or the BYOK
      token exactly when it is present with a value the schema refuses. */
  lemma ValidateGenerateNamesOptional(body: Json)
    requires body.JObj? && ValidateGenerate(body).Failure?
    ensures var keys := ValidateGenerate(body).error;
      var f := body.fields;
      && ("temperature" in keys <==> "temperature" in f && !(f["temperature"].JNum? && 0.0 <= f["temperature"].n <= 1.0))
      && ("tokenMode" in keys <==> "tokenMode" in f && !(f["tokenMode"].JStr? && f["tokenMode"].s in ModeNames))
      && ("byokToken" in keys <==> "byokToken" in f && !f["byokToken"].JStr?)
  {
    var c := GenerateOutcomes(CheckGenerate(body.fields));
    GenerateKeysDistinct(CheckGenerate(body.fields));
    FailedKeyNamed(c, 3);
    FailedKeyNamed(c, 4);
    FailedKeyNamed(c, 5);
  }

  /** The request body a client sends for an input, every key spelled out
      (`byokToken` only when there is one). */
  function EncodeGenerate(x: GenerateInput): (body: Json)
    ensures body.JObj?
  {
    var f := map["prompt" := JStr(x.prompt), "model" := JStr(x.model), "maxTokens" := JNum(x.maxTokens as real),
                 "temperature" := JNum(x.temperature), "tokenMode" := JStr(ModeName(x.tokenMode))];
    JObj(if x.byokToken.Some? then f["byokToken" := JStr(x.byokToken.value)] else f)
  }

  lemma CheckGenerateEncoded(x: GenerateInput)
    requires WithinBounds(x)
    ensures CheckGenerate(EncodeGenerate(x).fields) ==
      GenerateFields(Some(x.prompt), Some(x.model), Some(x.maxTokens), Some(x.temperature), Some(ModeName(x.tokenMode)),
                     Some(x.byokToken))
  {
    var f := EncodeGenerate(x).fields;
    assert f["prompt"] == JStr(x.prompt);
    assert f["model"] == JStr(x.model);
    assert f["maxTokens"] == JNum(x.maxTokens as real);
    assert (x.maxTokens as real).Floor == x.maxTokens;
    assert f["temperature"] == JNum(x.temperature);
    assert f["tokenMode"] == JStr(ModeName(x.tokenMode));
    if x.byokToken.Some? {
      assert f["byokToken"] == JStr(x.byokToken.value);
    } else {
      assert "byokToken" !in f;
    }
  }

  /** Every input within the bounds is accepted exactly as sent. */
  lemma ValidateGenerateEncodeRoundTrip(x: GenerateInput)
    requires WithinBounds(x)
    ensures ValidateGenerate(EncodeGenerate(x)) == Success(x)
  {
    CheckGenerateEncoded(x);
    assert ModeNamed(ModeName(x.tokenMode)) == x.tokenMode;
  }

  /** A token budget that is not a whole number is refused, even within the
      bounds. */
  lemma FractionalMaxTokensRefused(prompt: string)
    requires 10 <= Utf16Length(prompt) <= 4000
    ensures ValidateGenerate(JObj(map["prompt" := JStr(prompt), "maxTokens" := JNum(800.5)])).Failure?
  {
    var f := map["prompt" := JStr(prompt), "maxTokens" := JNum(800.5)];
    assert f["maxTokens"] == JNum(800.5);
    assert (800.5).Floor == 800;
  }

  /** A prompt alone gets every default: gpt-4o-mini, 800 tokens,
      temperature 0.3, the platform token. */
  lemma PromptAloneGetsDefaults(prompt: string)
    requires 10 <= Utf16Length(prompt) <= 4000
    ensures ValidateGenerate(JObj(map["prompt" := JStr(prompt)]))
         == Success(GenerateInput(prompt, DefaultModel, DefaultMaxTokens, DefaultTemperature, Platform, None))
  {
    var f := map["prompt" := JStr(prompt)];
    assert f["prompt"] == JStr(prompt);
    assert "model" !in f && "maxTokens" !in f && "temperature" !in f && "tokenMode" !in f && "byokToken" !in f;
  }

  const MissingTokenMessage := "GITHUB_TOKEN is not configured"

  /** `resolveToken`: the caller's own token in BYO mode when it is not
      empty; otherwise the platform token from the environment, and a throw
      when that is unset or empty. */
  function ResolveToken(x: GenerateInput, envToken: Option<string>): (r: Result<string, Thrown>)
    ensures r.Success? ==> r.value != ""
    ensures x.tokenMode == Byo && x.byokToken.Some? && x.byokToken.value != "" ==> r == Success(x.byokToken.value)
    ensures !(x.tokenMode == Byo && x.byokToken.Some? && x.byokToken.value != "") ==>
      (r.Success? <==> envToken.Some? && envToken.value != "") && (r.Success? ==> r.value == envToken.value)
    ensures r.Failure? ==> r.error == ErrorObject(MissingTokenMessage)
  {
    if x.tokenMode == Byo && x.byokToken.Some? && x.byokToken.value != "" then Success(x.byokToken.value)
    else if envToken.Some? && envToken.value != "" then Success(envToken.value)
    else Failure(ErrorObject(MissingTokenMessage))
  }

  /** The platform token is used in PLATFORM mode even when the body carries
      a token of its own. */
  lemma PlatformModeIgnoresByok(x: GenerateInput, envToken: Option<string>)
    requires x.tokenMode == Platform
    ensures ResolveToken(x, envToken) == ResolveToken(x.(byokToken := None), envToken)
  {
  }

  datatype Message = Message(role: string, content: string)

  /** The chat-completions request: the bearer token, the model, the system
      and user messages, the token budget and the temperature. */
  datatype ModelsRequest = ModelsRequest(token: string, model: string, messages: seq<Message>, maxTokens: int,
                                         temperature: real)

  function BuildRequest(x: GenerateInput, token: string): (q: ModelsRequest)
    ensures q.messages == [Message("system", SystemPrompt), Message("user", x.prompt)]
    ensures q.token == token && q.model == x.model && q.maxTokens == x.maxTokens && q.temperature == x.temperature
  {
    ModelsRequest(token, x.model, [Message("system", SystemPrompt), Message("user", x.prompt)], x.maxTokens,
                  x.temperature)
  }

  /** The reply body, with every field optional as the declared type has it. */
  datatype ReplyMessage = ReplyMessage(content: Option<string>)
  datatype Choice = Choice(message: Option<ReplyMessage>)
  datatype Usage = Usage(promptTokens: Option<int>, completionTokens: Option<int>)
  datatype ModelsResponse = ModelsResponse(choices: Option<seq<Choice>>, usage: Option<Usage>)

  /** What the HTTP exchange yields: a non-OK status with the response text,
      or an OK response whose body either parses or throws. */
  datatype HttpReply = NotOk(status: int, text: string) | Ok(body: Result<ModelsResponse, Thrown>)

  /** The generated document and the token counts. */
  datatype Generation = Generation(content: string, promptTokens: int, completionTokens: int)

  /** The optional chain `data.choices?.[0]?.message?.content` reaches a
      value: there is a first choice, it has a message, and the message has
      content. */
  predicate HasFirstContent(data: ModelsResponse) {
    && data.choices.Some? && |data.choices.value| > 0
    && data.choices.value[0].message.Some? && data.choices.value[0].message.value.content.Some?
  }

  /** `data.choices?.[0]?.message?.content ?? ""`: the content of the first
      choice, or "" when any link of the chain is missing. */
  function FirstContent(data: ModelsResponse): (content: string)
    ensures HasFirstContent(data) ==> content == data.choices.value[0].message.value.content.value
    ensures !HasFirstContent(data) ==> content == ""
  {
    if data.choices.Some? && |data.choices.value| > 0 && data.choices.value[0].message.Some? then
      data.choices.value[0].message.value.content.GetOr("")
    else ""
  }

  /** `generateSkillWithGitHubModels`: resolve the token (its throw comes
      first, before any request), send the request, throw on a non-OK
      status, and otherwise default the missing reply fields to "" and 0. */
  function Generate(x: GenerateInput, envToken: Option<string>, send: ModelsRequest -> Result<HttpReply, Thrown>)
    : (r: Result<Generation, Thrown>)
    ensures ResolveToken(x, envToken).Failure? ==> r == Failure(ErrorObject(MissingTokenMessage))
    ensures ResolveToken(x, envToken).Success? ==>
      var reply := send(BuildRequest(x, ResolveToken(x, envToken).value));
      && (reply.Failure? ==> r == Failure(reply.error))
      && (reply.Success? && reply.value.NotOk? ==> r.Failure? && r.error.ErrorObject?)
      && (reply.Success? && reply.value.Ok? ==>
            && (reply.value.body.Failure? ==> r == Failure(reply.value.body.error))
            && (reply.value.body.Success? ==>
                  var data := reply.value.body.value;
                  && r.Success?
                  && r.value.content == FirstContent(data)
                  && (data.usage.None? ==> r.value.promptTokens == 0 && r.value.completionTokens == 0)
                  && (data.usage.Some? ==>
                        && r.value.promptTokens == data.usage.value.promptTokens.GetOr(0)
                        && r.value.completionTokens == data.usage.value.completionTokens.GetOr(0))))
  {
    match ResolveToken(x, envToken)
    case Failure(e) => Failure(e)
    case Success(token) =>
      match send(BuildRequest(x, token))
      case Failure(e) => Failure(e)
      case Success(NotOk(status, text)) =>
        Failure(ErrorObject("GitHub Models error (" + IntToDecimal(status) + "): " + text))
      case Success(Ok(body)) =>
        match body
        case Failure(e) => Failure(e)
        case Success(data) =>
          var usage := data.usage.GetOr(Usage(None, None));
          Success(Generation(FirstContent(data), usage.promptTokens.GetOr(0), usage.completionTokens.GetOr(0)))
  }

  /** A non-OK response never yields content: the caller gets an error whose
      message names the status and carries the response text. */
  lemma NotOkThrows(x: GenerateInput, envToken: Option<string>, send: ModelsRequest -> Result<HttpReply, Thrown>,
                    status: int, text: string)
    requires ResolveToken(x, envToken).Success?
    requires send(BuildRequest(x, ResolveToken(x, envToken).value)) == Success(NotOk(status, text))
    ensures Generate(x, envToken, send)
         == Failure(ErrorObject("GitHub Models error (" + IntToDecimal(status) + "): " + text))
  {
  }

  /** A reply with no choices and no usage is an empty generation. */
  lemma EmptyReplyDefaults(x: GenerateInput, envToken: Option<string>, send: ModelsRequest -> Result<HttpReply, Thrown>)
    requires ResolveToken(x, envToken).Success?
    requires send(BuildRequest(x, ResolveToken(x, envToken).value)) == Success(Ok(Success(ModelsResponse(None, None))))
    ensures Generate(x, envToken, send) == Success(Generation("", 0, 0))
  {
  }

  function DigitChar(d: nat): (c: char)
    requires d < 10
    ensures '0' <= c <= '9' && c as int - '0' as int == d
  {
    "0123456789"[d]
  }

  /** The number a string of decimal digits denotes. */
  function DigitsValue(s: string): nat
    requires forall i :: 0 <= i < |s| ==> '0' <= s[i] <= '9'
  {
    if |s| == 0 then 0 else 10 * DigitsValue(s[..|s| - 1]) + (s[|s| - 1] as int - '0' as int)
  }

  /** The decimal rendering of a natural number: digits, with no leading
      zero, that denote `n`. */
  function NatToDecimal(n: nat): (s: string)
    ensures |s| > 0 && forall i :: 0 <= i < |s| ==> '0' <= s[i] <= '9'
    ensures DigitsValue(s) == n
    ensures |s| > 1 ==> s[0] != '0'
    decreases n
  {
    if n < 10 then [DigitChar(n)]
    else
      var s := NatToDecimal(n / 10) + [DigitChar(n % 10)];
      assert s[..|s| - 1] == NatToDecimal(n / 10);
      s
  }

  /** The decimal rendering of an integer (`${status}`). */
  function IntToDecimal(n: int): string {
    if n < 0 then "-" + NatToDecimal(-n) else NatToDecimal(n)
  }
}
