/** The prompt builder and the client-side image service: the city's wall-clock
    time, its time-of-day bucket, the lighting and weather-icon classifiers, the
    prompt text, and the checks on the generation endpoint's reply. */
module ImageService {
  import opened Common
  import opened WeatherTypes

  // ---------------------------------------------------------------------------
  // Wall-clock time of the city

  const MsPerMinute := 60000
  const MsPerHour := 3600000

  /** `getCityDate`: the clock's instant shifted by the browser's offset (minutes, as
      `getTimezoneOffset` gives it) and by the city's offset (seconds). */
  function CityDateMs(nowMs: int, browserOffsetMin: int, timezoneSec: int): int
  {
    nowMs + browserOffsetMin * MsPerMinute + timezoneSec * 1000
  }

  /** `getHours`: the browser's local hour of an instant, whose offset it subtracts. */
  function LocalHour(instantMs: int, browserOffsetMin: int): (h: int)
    ensures 0 <= h < 24
  {
    ((instantMs - browserOffsetMin * MsPerMinute) / MsPerHour) % 24
  }

  /** The hour read from the shifted date is the hour of the UTC instant plus the
      city's offset: the browser's own offset cancels out. */
  lemma CityHourIsUtcPlusOffset(nowMs: int, browserOffsetMin: int, timezoneSec: int)
    ensures LocalHour(CityDateMs(nowMs, browserOffsetMin, timezoneSec), browserOffsetMin)
            == ((nowMs + timezoneSec * 1000) / MsPerHour) % 24
  {
  }

  // ---------------------------------------------------------------------------
  // Time-of-day buckets and lighting

  datatype TimeOfDay = Sunrise | Morning | Midday | Sunset | Night | Day

  /** `getTimeOfDay`. */
  function TimeOfDayOf(hour: int): TimeOfDay
  {
    if 5 <= hour < 8 then Sunrise
    else if 8 <= hour < 12 then Morning
    else if 12 <= hour < 17 then Midday
    else if 17 <= hour < 20 then Sunset
    else if hour >= 20 || hour < 5 then Night
    else Day
  }

  /** The five buckets partition the hours; the "day" fallback is never reached. */
  lemma TimeOfDayPartition(hour: int)
    ensures TimeOfDayOf(hour) != Day
    ensures TimeOfDayOf(hour) == Sunrise <==> 5 <= hour < 8
    ensures TimeOfDayOf(hour) == Morning <==> 8 <= hour < 12
    ensures TimeOfDayOf(hour) == Midday <==> 12 <= hour < 17
    ensures TimeOfDayOf(hour) == Sunset <==> 17 <= hour < 20
    ensures TimeOfDayOf(hour) == Night <==> hour >= 20 || hour < 5
  {
  }

  /** The bucket's name as the prompt prints it. */
  function TimeOfDayName(t: TimeOfDay): string
  {
    match t
    case Sunrise => "sunrise"
    case Morning => "morning"
    case Midday => "midday"
    case Sunset => "sunset"
    case Night => "night"
    case Day => "day"
  }

  /** `getLightingDescription`. */
  function Lighting(t: TimeOfDay): string
  {
    match t
    case Sunrise => "warm golden hour tones with soft orange and pink hues"
    case Sunset => "warm golden hour tones with soft orange and pink hues"
    case Morning => "bright morning sun with clear, crisp lighting"
    case Midday => "bright midday sun with sharp shadows"
    case Night => "dark night scene with illuminated windows and street lights"
    case Day => "natural daylight with soft shadows"
  }

  lemma GoldenHourDistinct()
    ensures Lighting(Sunrise) != Lighting(Morning) && Lighting(Sunrise) != Lighting(Midday)
    ensures Lighting(Sunrise) != Lighting(Night) && Lighting(Sunrise) != Lighting(Day)
  {
  }

  lemma SunDistinct()
    ensures Lighting(Morning) != Lighting(Midday) && Lighting(Morning) != Lighting(Night)
    ensures Lighting(Morning) != Lighting(Day) && Lighting(Midday) != Lighting(Night)
  {
  }

  lemma NightDayDistinct()
    ensures Lighting(Midday) != Lighting(Day) && Lighting(Night) != Lighting(Day)
  {
  }

  /** Sunrise and sunset share their lighting; every other bucket has its own. */
  lemma LightingClasses(t: TimeOfDay, u: TimeOfDay)
    ensures Lighting(t) == Lighting(u) <==> t == u || (t in {Sunrise, Sunset} && u in {Sunrise, Sunset})
  {
    GoldenHourDistinct();
    SunDistinct();
    NightDayDistinct();
  }

  // ---------------------------------------------------------------------------
  // Weather icon

  const SunIcon := "\U{2600}\U{FE0F}"
  const CloudIcon := "\U{2601}\U{FE0F}"
  const RainIcon := "\U{1F327}\U{FE0F}"
  const StormIcon := "\U{26C8}\U{FE0F}"
  const SnowIcon := "\U{2744}\U{FE0F}"
  const FogIcon := "\U{1F32B}\U{FE0F}"
  const FallbackIcon := "\U{1F324}\U{FE0F}"

  /** `getWeatherIcon`: the first keyword found in the lower-cased description decides. */
  function WeatherIcon(description: string): string
  {
    var desc := ToLower(description);
    if Contains(desc, "clear") then SunIcon
    else if Contains(desc, "cloud") then CloudIcon
    else if Contains(desc, "rain") then RainIcon
    else if Contains(desc, "storm") || Contains(desc, "thunder") then StormIcon
    else if Contains(desc, "snow") then SnowIcon
    else if Contains(desc, "mist") || Contains(desc, "fog") then FogIcon
    else FallbackIcon
  }

  /** One row of the icon table: any of the keywords selects the icon. */
  datatype IconRule = IconRule(keywords: seq<string>, icon: string)

  const IconRules: seq<IconRule> := [
    IconRule(["clear"], SunIcon),
    IconRule(["cloud"], CloudIcon),
    IconRule(["rain"], RainIcon),
    IconRule(["storm", "thunder"], StormIcon),
    IconRule(["snow"], SnowIcon),
    IconRule(["mist", "fog"], FogIcon)
  ]

  predicate AnyKeyword(desc: string, keywords: seq<string>)
  {
    keywords != [] && (Contains(desc, keywords[0]) || AnyKeyword(desc, keywords[1..]))
  }

  /** Reference definition: the icon of the first rule, in table order, with a keyword in `desc`. */
  function FirstMatchingIcon(desc: string, rules: seq<IconRule>): string
  {
    if rules == [] then FallbackIcon
    else if AnyKeyword(desc, rules[0].keywords) then rules[0].icon
    else FirstMatchingIcon(desc, rules[1..])
  }

  /** A rule with a single keyword matches exactly when that keyword occurs. */
  lemma AnyOne(desc: string, k: string)
    ensures AnyKeyword(desc, [k]) <==> Contains(desc, k)
  {
    assert [k][1..] == [];
  }

  /** A rule with two keywords matches exactly when either occurs. */
  lemma AnyTwo(desc: string, k1: string, k2: string)
    ensures AnyKeyword(desc, [k1, k2]) <==> Contains(desc, k1) || Contains(desc, k2)
  {
    assert [k1, k2][1..] == [k2];
    AnyOne(desc, k2);
  }

  /** The if-chain is the first-match search over the ordered icon table. */
  lemma WeatherIconIsFirstMatch(description: string)
    ensures WeatherIcon(description) == FirstMatchingIcon(ToLower(description), IconRules)
  {
    var desc := ToLower(description);
    var r0 := IconRules;
    var r1, r2, r3, r4, r5 := r0[1..], r0[2..], r0[3..], r0[4..], r0[5..];
    AnyOne(desc, "clear");
    AnyOne(desc, "cloud");
    AnyOne(desc, "rain");
    AnyTwo(desc, "storm", "thunder");
    AnyOne(desc, "snow");
    AnyTwo(desc, "mist", "fog");
    assert FirstMatchingIcon(desc, r5[1..]) == FallbackIcon;
    assert FirstMatchingIcon(desc, r5) == (if Contains(desc, "mist") || Contains(desc, "fog") then FogIcon else FallbackIcon);
    assert r4[1..] == r5 && r3[1..] == r4 && r2[1..] == r3 && r1[1..] == r2 && r0[1..] == r1;
    assert FirstMatchingIcon(desc, r4) == (if Contains(desc, "snow") then SnowIcon else FirstMatchingIcon(desc, r5));
    assert FirstMatchingIcon(desc, r3) == (if Contains(desc, "storm") || Contains(desc, "thunder") then StormIcon else FirstMatchingIcon(desc, r4));
    assert FirstMatchingIcon(desc, r2) == (if Contains(desc, "rain") then RainIcon else FirstMatchingIcon(desc, r3));
    assert FirstMatchingIcon(desc, r1) == (if Contains(desc, "cloud") then CloudIcon else FirstMatchingIcon(desc, r2));
    assert FirstMatchingIcon(desc, r0) == (if Contains(desc, "clear") then SunIcon else FirstMatchingIcon(desc, r1));
  }

  /** Rain outranks a storm: a description mentioning both (and neither clear sky nor
      clouds) shows the rain icon, as "thunderstorm with rain" does. */
  lemma RainOutranksStorm(description: string)
    requires var desc := ToLower(description);
             Contains(desc, "rain") && Contains(desc, "storm") && !Contains(desc, "clear") && !Contains(desc, "cloud")
    ensures WeatherIcon(description) == RainIcon
  {
  }

  // ---------------------------------------------------------------------------
  // The prompt

  /** The four phrases of the prompt that depend on night versus day. */
  datatype Fragments = Fragments(atmosphere: string, activity: string, windowLights: string, streetLamps: string)

  const NightFragments := Fragments(
    "glowing windows, neon accents, and "
    + "reflective wet asphalt if rainy",
    "calmer streets with illuminated "
    + "buildings and selective traffic",
    "bright and varied by floor",
    "glowing warmly with halo")

  const DayFragments := Fragments(
    "sun glow, aerial haze, crisp shadows; "
    + "wet surfaces or puddles if rainy and "
    + "snow accumulation if snowy",
    "bustling streets with pedestrians and "
    + "light traffic",
    "reflecting daylight with interior "
    + "parallax",
    "present but off")

  function FragmentsFor(t: TimeOfDay): Fragments
  {
    if t == Night then NightFragments else DayFragments
  }

  /** Each of the four phrases takes its night variant exactly when the bucket is night. */
  lemma NightVariantsIffNight(t: TimeOfDay)
    ensures var f := FragmentsFor(t);
            && (f.atmosphere == NightFragments.atmosphere <==> t == Night)
            && (f.activity == NightFragments.activity <==> t == Night)
            && (f.windowLights == NightFragments.windowLights <==> t == Night)
            && (f.streetLamps == NightFragments.streetLamps <==> t == Night)
  {
  }

  const Intro :=
      "Create an ultra-detailed, 45\U{00B0} "
    + "top-down isometric miniature diorama of "
  const Landmarks :=
      ". Research and faithfully recreate 4-6 "
    + "of its most iconic, globally recognized "
    + "landmarks and skyline anchors (towers, "
    + "bridges, statues, cathedrals, arenas, "
    + "waterfronts) with accurate silhouettes, "
    + "materials, and proportions\U{2014}avoid "
    + "generic stand-ins. Layer the scene with "
    + "foreground plazas and streets, "
    + "mid-ground landmarks, and a background "
    + "skyline or hills, plus signage, transit "
    + "cues, and street furniture that fit the "
    + "city.\n\nUse premium, physically based "
    + "materials and high-frequency "
    + "micro-detailing: brick courses, window "
    + "mullions, rooftop HVAC units, balcony "
    + "rails, crosswalk markings, benches, "
    + "varied foliage, and reflective glass. "
    + "Light the scene with "
  const Shadows :=
      ", including subtle volumetric light and "
    + "realistic shadows.\n\nIntegrate the "
    + "current weather ("
  const AndThe := ") and the "
  const Atmosphere := " atmosphere directly into the environment: "
  const Activity :=
      ". Show context-appropriate activity "
    + "levels\U{2014}"
  const Vehicles :=
      " that align to the weather. Populate "
    + "the streets with authentic local "
    + "vehicles (taxis, trams, buses, "
    + "scooters) carrying regional colors, "
    + "signage, and liveries.\n\nUse a clean, "
    + "minimal backdrop that complements the "
    + "time of day so the diorama "
    + "pops\U{2014}avoid flat white; use soft "
    + "gradients or subtle geometric/halftone "
    + "patterns with very low contrast.\n\nAt "
    + "the top-center, place the title \""
  const IconLine :=
      "\" in large bold text, followed by:\n- "
    + "A prominent weather icon "
  const TimeLine := "\n- The current time \""
  const DateLine := "\" (medium text)\n- The date \""
  const TemperatureLine := "\" (small text)\n- Temperature \""
  const DegreesC := "\U{00B0}C"
  const Detailing :=
      "\" (medium text)\n\nAll text is "
    + "centered with consistent spacing and "
    + "may subtly overlap the tallest "
    + "buildings; the text color must contrast "
    + "with the background.\n\nInclude "
    + "time-specific detailing:\n- Window "
    + "lights ("
  const Lamps := ")\n- Street lamps "
  const ShadowsLine := "\n- Shadows angle and length based on "
  const Closing :=
      " sun position\n- Sky gradients and "
    + "horizon haze matching the exact hour\n- "
    + "Traffic and pedestrian density "
    + "following typical city rhythms\n- "
    + "City-relevant vehicles visible on "
    + "streets and avenues, rendered to real "
    + "scale and styling\n- If daytime, "
    + "include pedestrians wearing clothing "
    + "and accessories that reflect local "
    + "culture, climate, and color palettes; "
    + "at night, keep silhouettes subtle and "
    + "sparse\n\nSquare 1080x1080 composition."

  /** The template's fixed text in order; the filled-in values go between consecutive pieces. */
  const TemplateText: seq<string> := [
    Intro, Landmarks, Shadows, AndThe, Atmosphere, Activity, Vehicles, IconLine,
    TimeLine, DateLine, TemperatureLine, DegreesC + Detailing, Lamps, ShadowsLine, Closing]

  /** The values filled into the template, in order. */
  function TemplateValues(w: WeatherData, t: TimeOfDay, localTime: string, localDate: string): seq<string>
  {
    var f := FragmentsFor(t);
    [w.city, Lighting(t), w.description, TimeOfDayName(t), f.atmosphere, f.activity, w.city,
     WeatherIcon(w.description), localTime, localDate, IntToString(w.temperature),
     f.windowLights, f.streetLamps, TimeOfDayName(t)]
  }

  /** `build`: `formatTime` and `formatDate` are the locale formatters applied to the city instant. */
  function BuildPrompt(w: WeatherData, nowMs: int, browserOffsetMin: int,
                       formatTime: int -> string, formatDate: int -> string): string
  {
    var cityMs := CityDateMs(nowMs, browserOffsetMin, w.timezone);
    var t := TimeOfDayOf(LocalHour(cityMs, browserOffsetMin));
    Interleave(TemplateText, TemplateValues(w, t, formatTime(cityMs), formatDate(cityMs)))
  }

  lemma ValuesShape(w: WeatherData, t: TimeOfDay, localTime: string, localDate: string)
    ensures var v := TemplateValues(w, t, localTime, localDate);
            |v| == 14 && v[0] == w.city && v[2] == w.description && v[10] == IntToString(w.temperature)
  {
  }

  lemma TemplateShape()
    ensures |TemplateText| == 15 && TemplateText[11] == DegreesC + Detailing
  {
  }

  /** A template of fifteen texts whose twelfth starts with the degree sign names its
      first, third and eleventh values, the last followed by the degree sign. */
  lemma FilledTemplateMentions(texts: seq<string>, values: seq<string>, rest: string)
    requires |texts| == 15 && |values| == 14 && texts[11] == DegreesC + rest
    ensures var p := Interleave(texts, values);
            Contains(p, values[0]) && Contains(p, values[2]) && Contains(p, values[10] + DegreesC)
  {
    var p := Interleave(texts, values);
    ValueThenText(texts, values, 0);
    ContainsPrefixOf(p, values[0], texts[1]);
    ValueThenText(texts, values, 2);
    ContainsPrefixOf(p, values[2], texts[3]);
    ValueThenText(texts, values, 10);
    assert values[10] + texts[11] == (values[10] + DegreesC) + rest;
    ContainsPrefixOf(p, values[10] + DegreesC, rest);
  }

  /** The prompt names the city, the weather description and the temperature in degrees Celsius. */
  lemma PromptMentionsWeather(w: WeatherData, nowMs: int, browserOffsetMin: int,
                              formatTime: int -> string, formatDate: int -> string)
    ensures var p := BuildPrompt(w, nowMs, browserOffsetMin, formatTime, formatDate);
            Contains(p, w.city) && Contains(p, w.description) && Contains(p, IntToString(w.temperature) + DegreesC)
  {
    var cityMs := CityDateMs(nowMs, browserOffsetMin, w.timezone);
    var t := TimeOfDayOf(LocalHour(cityMs, browserOffsetMin));
    var values := TemplateValues(w, t, formatTime(cityMs), formatDate(cityMs));
    ValuesShape(w, t, formatTime(cityMs), formatDate(cityMs));
    TemplateShape();
    FilledTemplateMentions(TemplateText, values, Detailing);
  }

  // ---------------------------------------------------------------------------
  // The server image service

  /** What the generation endpoint answers: its status, its body as text (read when
      the status is not OK), and the `dataUrl` and `error` fields of its JSON body. */
  datatype ImageReply = ImageReply(ok: bool, text: string, dataUrl: Option<string>, error: Option<string>)

  /** `generateCityImage` as written: resolves to the data URL string alone. */
  function GenerateCityImageAsWritten(reply: ImageReply): Result<string>
  {
    if !reply.ok then Err(if reply.text == "" then "Image generation failed" else reply.text)
    else if Truthy(reply.error) then Err(reply.error.value)
    else if !Truthy(reply.dataUrl) then Err("No image returned from server")
    else Ok(reply.dataUrl.value)
  }

  /** `generateCityImage` as the service contract and its caller expect it: the data
      URL together with the prompt that produced it. */
  function GenerateCityImage(prompt: string, reply: ImageReply): (r: Result<GeneratedImage>)
    ensures r.Ok? <==> GenerateCityImageAsWritten(reply).Ok?
    ensures r.Ok? ==> r.value == GeneratedImage(GenerateCityImageAsWritten(reply).value, prompt)
    ensures r.Err? ==> r.message == GenerateCityImageAsWritten(reply).message
  {
    match GenerateCityImageAsWritten(reply)
    case Ok(url) => Ok(GeneratedImage(url, prompt))
    case Err(m) => Err(m)
  }

  /** The reply checks: a non-OK status fails with the body text or a fixed message, then
      an `error` field fails with its text, then a missing data URL fails; only a reply
      passing all three yields its data URL. */
  lemma ImageReplyChecks(prompt: string, reply: ImageReply)
    ensures var r := GenerateCityImage(prompt, reply);
            && (r.Ok? <==> reply.ok && !Truthy(reply.error) && Truthy(reply.dataUrl))
            && (r.Ok? ==> r.value.imageUrl == reply.dataUrl.value && r.value.prompt == prompt)
            && (!reply.ok ==> r == Err(if reply.text == "" then "Image generation failed" else reply.text))
            && (reply.ok && Truthy(reply.error) ==> r == Err(reply.error.value))
            && (reply.ok && !Truthy(reply.error) && !Truthy(reply.dataUrl) ==> r == Err("No image returned from server"))
  {
  }
}
