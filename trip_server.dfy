/**
  The deterministic rules inside the Flask server of backend/trip_server.py:
  the users table and its usage counters, the generations table and the
  history view of it, the request checks of `/voice`, `/user/stats` and
  `/history`, voice selection, and the splitting of community tags.
  The SQLite tables become a map from user id to row and a sequence of rows.
*/
module TripServer {
  import opened Results

  /** Model used when a request names none. */
  const DefaultModel: string := "dolphin-phi:latest"
  /** Language used when a request names none, and the voice fallback. */
  const DefaultLang: string := "pt-BR"
  /** Longest text `/voice` accepts. */
  const MaxVoiceText: nat := 1000
  /** Rows `/history` returns at most. */
  const HistoryLimit: nat := 50
  /** Characters of a prompt `/history` keeps. */
  const HistoryPromptLimit: nat := 100
  /** The value both usage limits report: no limit. */
  const Unlimited: int := -1

  const AvailableModels: seq<string> := ["dolphin-phi:latest", "llama2:latest", "mistral:latest", "all"]
  const FeaturesEnabled: seq<string> := ["voice_synthesis", "dna_remix", "batch_generation", "collaboration"]

  /** A JSON response: a body with status 200, or an error message with its status. */
  datatype Reply<+T> = Ok(body: T) | Err(status: nat, message: string)

  /** Python truthiness of a value that is a string or missing. */
  predicate Present(v: Option<string>) {
    v.Some? && v.value != ""
  }

  // ---------------------------------------------------------------------
  // The users table
  // ---------------------------------------------------------------------

  /** A row of `users`, without its surrogate key and creation time. */
  datatype UserRow = UserRow(
    username: Option<string>,
    dailyUsage: nat,
    monthlyUsage: nat,
    totalUsage: nat,
    favoriteModel: string,
    lastReset: string)

  /** The row `get_or_create_user` inserts on `today`. */
  function NewUser(today: string): (u: UserRow)
    ensures u.dailyUsage == 0 && u.monthlyUsage == 0 && u.totalUsage == 0
    ensures u.username.None? && u.favoriteModel == DefaultModel && u.lastReset == today
  {
    UserRow(None, 0, 0, 0, DefaultModel, today)
  }

  /** The users table after `get_or_create_user(userId)`. */
  function WithUser(users: map<string, UserRow>, userId: string, today: string): (r: map<string, UserRow>)
    ensures r.Keys == users.Keys + {userId}
    ensures forall u | u in users :: r[u] == users[u]
    ensures userId !in users ==> r[userId] == NewUser(today)
  {
    if userId in users then users else users[userId := NewUser(today)]
  }

  /** Get-or-create is idempotent: a second call changes nothing. */
  lemma WithUserIdempotent(users: map<string, UserRow>, userId: string, today: string, later: string)
    ensures WithUser(WithUser(users, userId, today), userId, later) == WithUser(users, userId, today)
  {
  }

  /** `row` with its three usage counters one higher. */
  function Bumped(row: UserRow): (r: UserRow)
    ensures r.dailyUsage == row.dailyUsage + 1
    ensures r.monthlyUsage == row.monthlyUsage + 1
    ensures r.totalUsage == row.totalUsage + 1
    ensures r.username == row.username && r.favoriteModel == row.favoriteModel
    ensures r.lastReset == row.lastReset
  {
    row.(dailyUsage := row.dailyUsage + 1,
         monthlyUsage := row.monthlyUsage + 1,
         totalUsage := row.totalUsage + 1)
  }

  /**
    The users table after the usage UPDATE of a successful `/trip`:
    the row of `userId`, if any, is bumped; every other row is untouched.
  */
  function WithUsageIncremented(users: map<string, UserRow>, userId: string): (r: map<string, UserRow>)
    ensures r.Keys == users.Keys
    ensures forall u | u in users && u != userId :: r[u] == users[u]
    ensures userId in users ==> r[userId] == Bumped(users[userId])
  {
    if userId in users then users[userId := Bumped(users[userId])] else users
  }

  /** After a get-or-create and a bump, the user has made exactly one more generation. */
  lemma FirstGenerationCountsOne(users: map<string, UserRow>, userId: string, today: string)
    requires userId !in users
    ensures var r := WithUsageIncremented(WithUser(users, userId, today), userId)[userId];
            r.dailyUsage == 1 && r.monthlyUsage == 1 && r.totalUsage == 1
  {
  }

  /** The usage counters `/user/stats` reports. */
  datatype UsageStats = UsageStats(
    dailyUsage: nat,
    monthlyUsage: nat,
    totalUsage: nat,
    dailyLimit: int,
    monthlyLimit: int,
    availableModels: seq<string>,
    featuresEnabled: seq<string>,
    isOpenSource: bool)

  /** The stats for the counters SELECT returned, zeros when it found no row. */
  function StatsFrom(row: Option<UserRow>): (s: UsageStats)
    ensures s.dailyLimit == Unlimited && s.monthlyLimit == Unlimited
    ensures row.None? ==> s.dailyUsage == 0 && s.monthlyUsage == 0 && s.totalUsage == 0
    ensures row.Some? ==> s.dailyUsage == row.value.dailyUsage && s.monthlyUsage == row.value.monthlyUsage
                          && s.totalUsage == row.value.totalUsage
  {
    match row
    case None => UsageStats(0, 0, 0, Unlimited, Unlimited, AvailableModels, FeaturesEnabled, true)
    case Some(u) =>
      UsageStats(u.dailyUsage, u.monthlyUsage, u.totalUsage, Unlimited, Unlimited,
                 AvailableModels, FeaturesEnabled, true)
  }

  // ---------------------------------------------------------------------
  // The generations table and the history view
  // ---------------------------------------------------------------------

  /** The `parameters` column as `json.loads` sees it. */
  datatype StoredParams =
    | Blank                                                      // NULL or the empty string
    | Json(temp: real, topP: real, model: string, persona: string) // text that parses
    | Garbled                                                    // text `json.loads` rejects

  /** The `parameters` field of a history entry. */
  datatype ParamsView =
    | EmptyObject
    | ParamsObject(temp: real, topP: real, model: string, persona: string)

  /** What `/history` reports when the stored parameters do not parse. */
  const FallbackParams: ParamsView := ParamsObject(1.3, 0.9, DefaultModel, "")

  /** A row of `generations`; every column but the user id may be NULL. */
  datatype GenerationRow = GenerationRow(
    userId: string,
    prompt: Option<string>,
    output: Option<string>,
    dna: Option<string>,
    parameters: StoredParams,
    modelUsed: Option<string>,
    generationTime: Option<real>,
    createdAt: Option<string>)

  datatype HistoryEntry = HistoryEntry(
    prompt: string,
    output: string,
    dna: string,
    parameters: ParamsView,
    modelUsed: string,
    generationTime: real,
    timestamp: string)

  /** `value if value else ""` for a column that may be NULL. */
  function OrEmpty(v: Option<string>): (s: string)
    ensures v.Some? ==> s == v.value
    ensures v.None? ==> s == ""
  {
    v.GetOr("")
  }

  /** The first `n` characters of `s`, or all of it if shorter: `s[:n]`. */
  function Truncate(s: string, n: nat): (t: string)
    ensures |t| <= n && |t| <= |s|
    ensures |t| == if |s| <= n then |s| else n
    ensures t == s[..|t|]
    ensures |s| <= n ==> t == s
  {
    if |s| <= n then s else s[..n]
  }

  function ParamsViewOf(p: StoredParams): (v: ParamsView)
    ensures p.Blank? ==> v == EmptyObject
    ensures p.Garbled? ==> v == FallbackParams
    ensures p.Json? ==> v == ParamsObject(p.temp, p.topP, p.model, p.persona)
  {
    match p
    case Blank => EmptyObject
    case Json(t, tp, m, ps) => ParamsObject(t, tp, m, ps)
    case Garbled => FallbackParams
  }

  /** One row of the `/history` loop. */
  function NormalizeRow(row: GenerationRow): (e: HistoryEntry)
    ensures |e.prompt| <= HistoryPromptLimit
    ensures |e.prompt| == if |OrEmpty(row.prompt)| <= HistoryPromptLimit then |OrEmpty(row.prompt)|
                          else HistoryPromptLimit
    ensures |e.prompt| <= |OrEmpty(row.prompt)| && e.prompt == OrEmpty(row.prompt)[..|e.prompt|]
    ensures row.prompt.Some? && |row.prompt.value| <= HistoryPromptLimit ==> e.prompt == row.prompt.value
    ensures e.output == OrEmpty(row.output) && e.dna == OrEmpty(row.dna)
    ensures e.modelUsed == OrEmpty(row.modelUsed) && e.timestamp == OrEmpty(row.createdAt)
    ensures e.generationTime == row.generationTime.GetOr(0.0)
    ensures e.parameters == ParamsViewOf(row.parameters)
  {
    HistoryEntry(
      Truncate(OrEmpty(row.prompt), HistoryPromptLimit),
      OrEmpty(row.output),
      OrEmpty(row.dna),
      ParamsViewOf(row.parameters),
      OrEmpty(row.modelUsed),
      row.generationTime.GetOr(0.0),
      OrEmpty(row.createdAt))
  }

  /**
    The positions in the table of the rows of `userId`, newest (last
    inserted) first: every such position exactly once, in decreasing order.
  */
  function NewestIndices(generations: seq<GenerationRow>, userId: string): (idx: seq<nat>)
    ensures forall k | 0 <= k < |idx| :: idx[k] < |generations| && generations[idx[k]].userId == userId
    ensures forall k, l | 0 <= k < l < |idx| :: idx[k] > idx[l]
    ensures forall i | 0 <= i < |generations| && generations[i].userId == userId :: i in idx
  {
    if generations == [] then []
    else
      var n := |generations| - 1;
      var earlier := NewestIndices(generations[..n], userId);
      if generations[n].userId == userId then [n] + earlier else earlier
  }

  /** The rows of `userId`, newest (last inserted) first. */
  function NewestFirst(generations: seq<GenerationRow>, userId: string): (rows: seq<GenerationRow>)
    ensures |rows| == |NewestIndices(generations, userId)|
    ensures forall k | 0 <= k < |rows| :: rows[k] == generations[NewestIndices(generations, userId)[k]]
  {
    if generations == [] then []
    else
      var last := generations[|generations| - 1];
      var earlier := NewestFirst(generations[..|generations| - 1], userId);
      if last.userId == userId then [last] + earlier else earlier
  }

  /**
    The rows the `/history` SELECT returns: the user's rows, newest first,
    cut to the 50 newest.
  */
  function HistoryQuery(generations: seq<GenerationRow>, userId: string): (rows: seq<GenerationRow>)
    ensures var idx := NewestIndices(generations, userId);
            |rows| == if |idx| <= HistoryLimit then |idx| else HistoryLimit
    ensures forall k | 0 <= k < |rows| :: rows[k] == generations[NewestIndices(generations, userId)[k]]
    ensures forall r | r in rows :: r in generations && r.userId == userId
  {
    var all := NewestFirst(generations, userId);
    if |all| <= HistoryLimit then all else all[..HistoryLimit]
  }

  /** A row just inserted for a user is the first their history shows. */
  lemma NewRowLeadsHistory(generations: seq<GenerationRow>, row: GenerationRow)
    ensures HistoryQuery(generations + [row], row.userId) != []
    ensures HistoryQuery(generations + [row], row.userId)[0] == row
  {
  }

  /** Rows of other users do not change anyone else's history. */
  lemma OtherUsersRowsInvisible(generations: seq<GenerationRow>, row: GenerationRow, userId: string)
    requires row.userId != userId
    ensures HistoryQuery(generations + [row], userId) == HistoryQuery(generations, userId)
  {
  }

  // ---------------------------------------------------------------------
  // Voice selection and the `/voice` checks
  // ---------------------------------------------------------------------

  /** `voice_map` of `generate_voice_sync`. */
  const VoiceMap: map<string, string> := map[
    "pt-BR" := "Microsoft Server Speech Text to Speech Voice (pt-BR, FranciscaNeural)",
    "pt-PT" := "pt-PT-RaquelNeural",
    "en-US" := "en-US-AriaNeural",
    "es-ES" := "es-ES-ElviraNeural",
    "fr-FR" := "fr-FR-DeniseNeural"
  ]

  /** `voice_map.get(lang_code, voice_map["pt-BR"])`. */
  function SelectVoice(langCode: string): (voice: string)
    ensures voice in VoiceMap.Values
    ensures langCode in VoiceMap ==> voice == VoiceMap[langCode]
    ensures langCode !in VoiceMap ==> voice == VoiceMap[DefaultLang]
  {
    if langCode in VoiceMap then VoiceMap[langCode] else VoiceMap[DefaultLang]
  }

  /**
    Every supported language has a voice of its own, and a code gets the
    pt-BR voice exactly when it is "pt-BR" or not supported.
  */
  lemma VoiceFallbackExact(langCode: string)
    ensures SelectVoice(langCode) == VoiceMap[DefaultLang] <==> langCode == DefaultLang || langCode !in VoiceMap
  {
  }

  /** The body of a `/voice` request; a missing key is None. */
  datatype VoiceRequest = VoiceRequest(userId: Option<string>, text: Option<string>, lang: Option<string>)

  /** What `/voice` hands to the synthesiser once its checks pass. */
  datatype VoiceJob = VoiceJob(text: string, voice: string)

  /** The checks of `/voice`, in the source's order, each answering 400. */
  function CheckVoiceRequest(req: VoiceRequest): (r: Reply<VoiceJob>)
    ensures !Present(req.userId) ==> r == Err(400, "User ID required")
    ensures Present(req.userId) && req.text.GetOr("") == "" ==> r == Err(400, "Text is required")
    ensures Present(req.userId) && |req.text.GetOr("")| > MaxVoiceText
            ==> r == Err(400, "Text too long (max 1000 characters)")
    ensures r.Ok? <==> Present(req.userId) && 0 < |req.text.GetOr("")| <= MaxVoiceText
    ensures r.Ok? ==> r.body == VoiceJob(req.text.value, SelectVoice(req.lang.GetOr(DefaultLang)))
  {
    if !Present(req.userId) then Err(400, "User ID required")
    else
      var text := req.text.GetOr("");
      var langCode := req.lang.GetOr(DefaultLang);
      if text == [] then Err(400, "Text is required")
      else if |text| > MaxVoiceText then Err(400, "Text too long (max 1000 characters)")
      else Ok(VoiceJob(text, SelectVoice(langCode)))
  }

  /** What the speech synthesiser did: base64 audio, or the text of its exception. */
  datatype SynthOutcome = Synthesized(mp3: string) | SynthFailed(reason: string)

  /** The `/voice` handler, with the synthesiser's outcome given. */
  function Voice(req: VoiceRequest, synth: SynthOutcome): (r: Reply<string>)
    ensures CheckVoiceRequest(req).Err? ==>
              r == Err(CheckVoiceRequest(req).status, CheckVoiceRequest(req).message)
    ensures CheckVoiceRequest(req).Ok? && synth.Synthesized? ==> r == Ok(synth.mp3)
    ensures CheckVoiceRequest(req).Ok? && synth.SynthFailed? ==> r == Err(500, synth.reason)
  {
    match CheckVoiceRequest(req)
    case Err(status, message) => Err(status, message)
    case Ok(_) =>
      match synth
      case Synthesized(mp3) => Ok(mp3)
      case SynthFailed(reason) => Err(500, reason)
  }

  // ---------------------------------------------------------------------
  // `/trip`
  // ---------------------------------------------------------------------

  /** The body of a `/trip` request; a missing key is None. */
  datatype TripRequest = TripRequest(
    userId: Option<string>,
    prompt: Option<string>,
    model: Option<string>,
    persona: Option<string>,
    temp: Option<real>,
    topP: Option<real>,
    voiceEnabled: bool,
    lang: Option<string>)

  /** The JSON the server posts to the model runner. */
  datatype OllamaPayload = OllamaPayload(
    model: string, prompt: string, system: string,
    temperature: real, topP: real, maxTokens: nat, stream: bool)

  /** The payload `/trip` posts for a request, with the request's defaults filled in. */
  function PayloadFor(req: TripRequest): (p: OllamaPayload)
    ensures p.model == req.model.GetOr(DefaultModel)
    ensures p.prompt == req.prompt.GetOr("Hello")
    ensures p.system == req.persona.GetOr("")
    ensures p.temperature == req.temp.GetOr(1.3) && p.topP == req.topP.GetOr(0.95)
    ensures p.maxTokens == 600 && !p.stream
  {
    OllamaPayload(req.model.GetOr(DefaultModel), req.prompt.GetOr("Hello"), req.persona.GetOr(""),
                  req.temp.GetOr(1.3), req.topP.GetOr(0.95), 600, false)
  }

  /** What the POST to the model runner produced. */
  datatype OllamaOutcome =
    | Answered(statusCode: nat, text: string, response: Option<string>)
    | ConnectionRefused
    | RequestFailed(reason: string)

  /** The decimal digits of `n`, as `str(n)` writes them. */
  function DecimalString(n: nat): (s: string)
    ensures |s| >= 1 && forall i | 0 <= i < |s| :: '0' <= s[i] <= '9'
  {
    if n < 10 then [('0' as int + n) as char]
    else DecimalString(n / 10) + [('0' as int + n % 10) as char]
  }

  /** The generated text, or the 500 reply `/trip` gives for a failed call. */
  function OllamaText(outcome: OllamaOutcome): (r: Reply<string>)
    ensures r.Ok? <==> outcome.Answered? && outcome.statusCode == 200
    ensures r.Ok? ==> r.body == outcome.response.GetOr("No response from AI")
    ensures r.Err? ==> r.status == 500
  {
    match outcome
    case Answered(code, text, response) =>
      if code != 200 then Err(500, "Ollama error: " + DecimalString(code) + " - " + text)
      else Ok(response.GetOr("No response from AI"))
    case ConnectionRefused =>
      Err(500, "Cannot connect to Ollama. Make sure it's running with 'ollama serve'")
    case RequestFailed(reason) =>
      Err(500, "Ollama request failed: " + reason)
  }

  /** The row a successful `/trip` inserts into `generations`. */
  function GenerationFor(req: TripRequest, userId: string, output: string, dna: string,
                         generationTime: real, now: string): (g: GenerationRow)
    ensures g.userId == userId && g.prompt == Some(req.prompt.GetOr(""))
    ensures g.output == Some(output) && g.dna == Some(dna)
    ensures g.parameters == Json(req.temp.GetOr(1.3), req.topP.GetOr(0.95),
                                 req.model.GetOr(DefaultModel), req.persona.GetOr(""))
    ensures g.modelUsed == Some(req.model.GetOr(DefaultModel))
  {
    GenerationRow(
      userId,
      Some(req.prompt.GetOr("")),
      Some(output),
      Some(dna),
      Json(req.temp.GetOr(1.3), req.topP.GetOr(0.95), req.model.GetOr(DefaultModel), req.persona.GetOr("")),
      Some(req.model.GetOr(DefaultModel)),
      Some(generationTime),
      Some(now))
  }

  /**
    The row `/trip` stores records the model, persona and sampling values the
    runner was sent, but not always its prompt: a request without a prompt
    sends "Hello" and stores "".
  */
  lemma PayloadMatchesStoredRow(req: TripRequest, userId: string, output: string, dna: string,
                                generationTime: real, now: string)
    ensures var p := PayloadFor(req);
            var g := GenerationFor(req, userId, output, dna, generationTime, now);
            && g.parameters == Json(p.temperature, p.topP, p.model, p.system)
            && g.modelUsed == Some(p.model)
            && (g.prompt == Some(p.prompt) <==> req.prompt.Some?)
  {
  }

  datatype TripReply = TripReply(output: string, dna: string, userId: string,
                                 generationTime: real, voice: Option<string>)

  /** The `voice` field of the reply: present only when asked for and non-empty. */
  function ReplyVoice(req: TripRequest, synthesized: Option<string>): (v: Option<string>)
    ensures v.Some? <==> req.voiceEnabled && Present(synthesized)
    ensures v.Some? ==> v == synthesized
  {
    if req.voiceEnabled && Present(synthesized) then synthesized else None
  }

  // ---------------------------------------------------------------------
  // The database, with the handlers that change it
  // ---------------------------------------------------------------------

  /** The two tables the handlers write: `users` and `generations`. */
  class Database {
    var users: map<string, UserRow>
    var generations: seq<GenerationRow>

    /** The empty database `init_db` creates. */
    constructor ()
      ensures users == map[] && generations == []
    {
      users := map[];
      generations := [];
    }

    /** `get_or_create_user`: insert a zero-usage row only if the id is new. */
    method GetOrCreateUser(userId: string, today: string) returns (user: UserRow)
      modifies this
      ensures users == WithUser(old(users), userId, today)
      ensures generations == old(generations)
      ensures userId in users && user == users[userId]
      ensures userId in old(users) ==> user == old(users)[userId]
    {
      if userId !in users {
        users := users[userId := NewUser(today)];
      }
      user := users[userId];
    }

    /** The usage UPDATE of a successful `/trip`. */
    method IncrementUsage(userId: string)
      modifies this
      ensures users == WithUsageIncremented(old(users), userId)
      ensures generations == old(generations)
    {
      if userId in users {
        users := users[userId := Bumped(users[userId])];
      }
    }

    /**
      `/trip`, with its outside world given: `freshUserId` is the uuid used
      when the request has no user id, `ollama` what the model runner does
      with the payload it is posted,
      `dna` the fingerprint generated, `synthesized` the speech (None when
      it raised), `elapsed` the generation time and `today`/`now` the clock.
      The user is created before the model runner is called, so a failed
      call still leaves the user's row behind, with unchanged counters.
    */
    method Trip(req: TripRequest, freshUserId: string, today: string, now: string,
                ollama: OllamaPayload -> OllamaOutcome, dna: string, synthesized: Option<string>,
                elapsed: real)
      returns (reply: Reply<TripReply>)
      modifies this
      ensures var userId := req.userId.GetOr(freshUserId);
              var created := WithUser(old(users), userId, today);
              match OllamaText(ollama(PayloadFor(req)))
              case Err(status, message) =>
                && reply == Err(status, message)
                && users == created && generations == old(generations)
              case Ok(text) =>
                && reply == Ok(TripReply(text, dna, userId, elapsed, ReplyVoice(req, synthesized)))
                && users == WithUsageIncremented(created, userId)
                && generations == old(generations) + [GenerationFor(req, userId, text, dna, elapsed, now)]
    {
      var userId := req.userId.GetOr(freshUserId);
      var _ := GetOrCreateUser(userId, today);
      var payload := PayloadFor(req);
      var text := OllamaText(ollama(payload));
      if text.Err? {
        return Err(text.status, text.message);
      }
      generations := generations + [GenerationFor(req, userId, text.body, dna, elapsed, now)];
      IncrementUsage(userId);
      reply := Ok(TripReply(text.body, dna, userId, elapsed, ReplyVoice(req, synthesized)));
    }

    /** `/user/stats`: reject a missing id, create the user, report its counters. */
    method GetUserStats(userId: Option<string>, today: string) returns (reply: Reply<UsageStats>)
      modifies this
      ensures !Present(userId) ==> reply == Err(400, "User ID required") && users == old(users)
      ensures Present(userId) ==> users == WithUser(old(users), userId.value, today)
      ensures Present(userId) ==> reply == Ok(StatsFrom(Some(users[userId.value])))
      ensures generations == old(generations)
    {
      if !Present(userId) {
        return Err(400, "User ID required");
      }
      var _ := GetOrCreateUser(userId.value, today);
      var row := if userId.value in users then Some(users[userId.value]) else None;
      reply := Ok(StatsFrom(row));
    }

    /** `/history`: reject a missing id, then normalise the user's newest rows. */
    method GetHistory(userId: Option<string>) returns (reply: Reply<seq<HistoryEntry>>)
      ensures !Present(userId) ==> reply == Err(400, "User ID required")
      ensures Present(userId) ==> reply.Ok?
      ensures reply.Ok? ==>
                var rows := HistoryQuery(generations, userId.value);
                |reply.body| == |rows| <= HistoryLimit &&
                forall i | 0 <= i < |rows| :: reply.body[i] == NormalizeRow(rows[i])
    {
      if !Present(userId) {
        return Err(400, "User ID required");
      }
      var history := NormalizeRows(HistoryQuery(generations, userId.value));
      reply := Ok(history);
    }
  }

  /** The loop of `/history`: one entry per fetched row, in the same order. */
  method NormalizeRows(rows: seq<GenerationRow>) returns (history: seq<HistoryEntry>)
    ensures |history| == |rows|
    ensures forall i | 0 <= i < |rows| :: history[i] == NormalizeRow(rows[i])
  {
    history := [];
    for i := 0 to |rows|
      invariant |history| == i
      invariant forall j | 0 <= j < i :: history[j] == NormalizeRow(rows[j])
    {
      history := history + [NormalizeRow(rows[i])];
    }
  }

  /** After a successful `/trip` the new generation heads the user's history. */
  lemma TripLeadsHistory(generations: seq<GenerationRow>, req: TripRequest, userId: string,
                         output: string, dna: string, elapsed: real, now: string)
    ensures var g := GenerationFor(req, userId, output, dna, elapsed, now);
            var h := HistoryQuery(generations + [g], userId);
            h != [] && NormalizeRow(h[0]).output == output && NormalizeRow(h[0]).dna == dna
  {
  }

  // ---------------------------------------------------------------------
  // Community prompts and their tags
  // ---------------------------------------------------------------------

  /** `s.split(sep)`: the pieces between separators, at least one. */
  function Split(s: string, sep: char): (parts: seq<string>)
    ensures |parts| >= 1
    ensures forall i | 0 <= i < |parts| :: sep !in parts[i]
    decreases |s|
  {
    if s == [] then [""]
    else if s[0] == sep then [""] + Split(s[1..], sep)
    else
      var rest := Split(s[1..], sep);
      [[s[0]] + rest[0]] + rest[1..]
  }

  /** `sep.join(parts)`. */
  function Join(parts: seq<string>, sep: char): string
    decreases |parts|
  {
    if parts == [] then ""
    else if |parts| == 1 then parts[0]
    else parts[0] + [sep] + Join(parts[1..], sep)
  }

  /** Joining the pieces of a split gives back the string. */
  lemma {:induction false} JoinSplit(s: string, sep: char)
    ensures Join(Split(s, sep), sep) == s
    decreases |s|
  {
    if s != [] {
      JoinSplit(s[1..], sep);
      var rest := Split(s[1..], sep);
      if s[0] == sep {
        assert Split(s, sep) == [""] + rest;
        assert ([""] + rest)[1..] == rest;
      } else if |rest| == 1 {
        assert Split(s, sep) == [[s[0]] + rest[0]];
      } else {
        var parts := [[s[0]] + rest[0]] + rest[1..];
        assert parts[1..] == rest[1..];
        assert Join(rest, sep) == rest[0] + [sep] + Join(rest[1..], sep);
      }
    }
  }

  /** A string without the separator splits into itself alone. */
  lemma {:induction false} SplitPlain(w: string, sep: char)
    requires sep !in w
    ensures Split(w, sep) == [w]
    decreases |w|
  {
    if w != [] {
      SplitPlain(w[1..], sep);
      assert [w[0]] + w[1..] == w;
    }
  }

  /** A separator after a plain piece starts a new part. */
  lemma {:induction false} SplitAfterPiece(w: string, sep: char, t: string)
    requires sep !in w
    ensures Split(w + [sep] + t, sep) == [w] + Split(t, sep)
    decreases |w|
  {
    if w == [] {
      assert w + [sep] + t == [sep] + t;
      assert ([sep] + t)[1..] == t;
    } else {
      var s := w + [sep] + t;
      assert s[0] == w[0] && s[1..] == w[1..] + [sep] + t;
      SplitAfterPiece(w[1..], sep, t);
      assert [w[0]] + w[1..] == w;
    }
  }

  /** Splitting a join of separator-free pieces gives back the pieces. */
  lemma {:induction false} SplitJoin(parts: seq<string>, sep: char)
    requires |parts| >= 1
    requires forall i | 0 <= i < |parts| :: sep !in parts[i]
    ensures Split(Join(parts, sep), sep) == parts
    decreases |parts|
  {
    if |parts| == 1 {
      SplitPlain(parts[0], sep);
    } else {
      SplitJoin(parts[1..], sep);
      SplitAfterPiece(parts[0], sep, Join(parts[1..], sep));
      assert [parts[0]] + parts[1..] == parts;
    }
  }

  /** The `tags` list: `tags.split(',') if tags else []`. */
  function SplitTags(tags: Option<string>): (r: seq<string>)
    ensures !Present(tags) ==> r == []
    ensures Present(tags) ==> r != [] && forall i | 0 <= i < |r| :: ',' !in r[i]
    ensures Join(r, ',') == OrEmpty(tags)
  {
    if !Present(tags) then []
    else
      JoinSplit(tags.value, ',');
      Split(tags.value, ',')
  }

  /** A row of the `/community/prompts` SELECT. */
  datatype CommunityRow = CommunityRow(
    title: string, prompt: string, description: Option<string>, tags: Option<string>,
    likes: int, downloads: int, isFeatured: Option<int>, createdAt: string)

  datatype CommunityPrompt = CommunityPrompt(
    title: string, prompt: string, description: Option<string>, tags: seq<string>,
    likes: int, downloads: int, isFeatured: bool, createdAt: string)

  /** One row of the `/community/prompts` loop. */
  function PromptOf(row: CommunityRow): (p: CommunityPrompt)
    ensures p.tags == SplitTags(row.tags)
    ensures p.isFeatured <==> row.isFeatured.Some? && row.isFeatured.value != 0
    ensures p.title == row.title && p.prompt == row.prompt && p.description == row.description
    ensures p.likes == row.likes && p.downloads == row.downloads && p.createdAt == row.createdAt
  {
    CommunityPrompt(row.title, row.prompt, row.description, SplitTags(row.tags),
                    row.likes, row.downloads, row.isFeatured.Some? && row.isFeatured.value != 0,
                    row.createdAt)
  }

  /** `/community/prompts`: one prompt per fetched row, in the same order. */
  method GetCommunityPrompts(rows: seq<CommunityRow>) returns (prompts: seq<CommunityPrompt>)
    ensures |prompts| == |rows|
    ensures forall i | 0 <= i < |rows| :: prompts[i] == PromptOf(rows[i])
  {
    prompts := [];
    for i := 0 to |rows|
      invariant |prompts| == i
      invariant forall j | 0 <= j < i :: prompts[j] == PromptOf(rows[j])
    {
      prompts := prompts + [PromptOf(rows[i])];
    }
  }
}
