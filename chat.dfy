/** The chat command interpreter of components/ChatPanel.tsx. `handleSend`
    trims the input, echoes it, lower-cases it and tries seven rules in a
    fixed order, each an unanchored regular expression or substring test;
    the first that matches calls the store and adds one system reply. */
module Chat {
  import opened Common
  import opened Js
  import opened Types
  import opened Store

  // ---------------------------------------------------------------------
  // Commands

  /** The rule that fires, with its capture group. */
  datatype Command =
    | SetCityCmd(name: string)        // /set city (.+)/
    | FilterAqiCmd(digits: string)    // /filter aqi > (\d+)/
    | RadiusCmd(digits: string)       // /radius (\d+)/
    | ShowAnomaliesCmd                // includes("show anomalies")
    | HideAnomaliesCmd                // includes("hide anomalies")
    | SelectCmd(query: string)        // /select (.+)/
    | UnknownCmd

  /** The regular expression `lit(cls+)` matches somewhere in text. */
  predicate Matches(text: string, lit: string, cls: char -> bool)
  {
    exists i :: 0 <= i <= |text| && CaptureAt(text, i, lit, cls)
  }

  predicate Occurs(text: string, lit: string)
  {
    exists i :: 0 <= i <= |text| && LiteralAt(text, i, lit)
  }

  /** The if/return chain of `handleSend` on the lower-cased text. A numeric
      capture is a non-empty run of digits; a city or a station query is
      non-empty, has no line break, and is made of characters of the text. */
  function Classify(text: string): (cmd: Command)
    ensures cmd.FilterAqiCmd? || cmd.RadiusCmd? ==>
      |cmd.digits| > 0 && forall k :: 0 <= k < |cmd.digits| ==> IsDigit(cmd.digits[k])
    ensures cmd.SetCityCmd? ==>
      |cmd.name| > 0 && forall k :: 0 <= k < |cmd.name| ==> NotLineTerminator(cmd.name[k]) && cmd.name[k] in text
    ensures cmd.SelectCmd? ==>
      |cmd.query| > 0 && forall k :: 0 <= k < |cmd.query| ==> NotLineTerminator(cmd.query[k]) && cmd.query[k] in text
  {
    match MatchCapture(text, "set city ", NotLineTerminator)
    case Some(c) => SetCityCmd(c)
    case None =>
      match MatchCapture(text, "filter aqi > ", IsDigit)
      case Some(d) => FilterAqiCmd(d)
      case None =>
        match MatchCapture(text, "radius ", IsDigit)
        case Some(d) => RadiusCmd(d)
        case None =>
          if Contains(text, "show anomalies") then ShowAnomaliesCmd
          else if Contains(text, "hide anomalies") then HideAnomaliesCmd
          else
            match MatchCapture(text, "select ", NotLineTerminator)
            case Some(q) => SelectCmd(q)
            case None => UnknownCmd
  }

  /** The first rule whose pattern occurs anywhere in the text wins, in the
      order set city, filter aqi >, radius, show anomalies, hide anomalies,
      select; with none, the default reply. */
  lemma ClassifyFirstRuleWins(text: string)
    ensures Classify(text).SetCityCmd? <==> Matches(text, "set city ", NotLineTerminator)
    ensures Classify(text).FilterAqiCmd? <==>
      !Matches(text, "set city ", NotLineTerminator) && Matches(text, "filter aqi > ", IsDigit)
    ensures Classify(text).RadiusCmd? <==>
      !Matches(text, "set city ", NotLineTerminator) && !Matches(text, "filter aqi > ", IsDigit) &&
      Matches(text, "radius ", IsDigit)
    ensures Classify(text).ShowAnomaliesCmd? <==>
      !Matches(text, "set city ", NotLineTerminator) && !Matches(text, "filter aqi > ", IsDigit) &&
      !Matches(text, "radius ", IsDigit) && Occurs(text, "show anomalies")
    ensures Classify(text).HideAnomaliesCmd? <==>
      !Matches(text, "set city ", NotLineTerminator) && !Matches(text, "filter aqi > ", IsDigit) &&
      !Matches(text, "radius ", IsDigit) && !Occurs(text, "show anomalies") && Occurs(text, "hide anomalies")
    ensures Classify(text).SelectCmd? <==>
      !Matches(text, "set city ", NotLineTerminator) && !Matches(text, "filter aqi > ", IsDigit) &&
      !Matches(text, "radius ", IsDigit) && !Occurs(text, "show anomalies") && !Occurs(text, "hide anomalies") &&
      Matches(text, "select ", NotLineTerminator)
  {
    ContainsIff(text, "show anomalies");
    ContainsIff(text, "hide anomalies");
  }

  /** A digit capture is a non-empty run of digits, so `parseInt` reads its
      decimal value. */
  lemma DigitCaptureParses(text: string, lit: string)
    requires MatchCapture(text, lit, IsDigit).Some?
    ensures var d := MatchCapture(text, lit, IsDigit).value;
      |d| > 0 && (forall k :: 0 <= k < |d| ==> IsDigit(d[k])) && ParseInt(d) == Int(DigitsValue(d))
  {
    ParseDigits(MatchCapture(text, lit, IsDigit).value);
  }

  // ---------------------------------------------------------------------
  // Replies and store updates

  datatype Role = SystemRole | UserRole

  /** A chat message (the `Date.now()` ids are not modelled). */
  datatype Message = Message(role: Role, text: string)

  const DefaultReply: string := "Got it \U{2014} use one of the commands above to change the view."

  /** `query.replace(/["']/g, "")`. */
  function StripQuotes(q: string): (r: string)
    ensures forall k :: 0 <= k < |r| ==> r[k] != '"' && r[k] != '\''
  {
    Filter(q, (c: char) => c != '"' && c != '\'')
  }

  predicate StationMatches(st: Station, query: string)
  {
    st.id == query || Contains(ToLower(st.name), ToLower(query))
  }

  /** `stations.find(s => s.id === query || s.name.toLowerCase().includes(query.toLowerCase()))`. */
  function FindStation(stations: seq<Station>, query: string): (r: Option<Station>)
    ensures r.Some? ==>
      exists i :: 0 <= i < |stations| && stations[i] == r.value && StationMatches(r.value, query) &&
        forall j :: 0 <= j < i ==> !StationMatches(stations[j], query)
    ensures r.None? ==> forall i :: 0 <= i < |stations| ==> !StationMatches(stations[i], query)
  {
    if stations == [] then None
    else if StationMatches(stations[0], query) then Some(stations[0])
    else
      var r := FindStation(stations[1..], query);
      assert forall i :: 1 <= i < |stations| ==> stations[i] == stations[1..][i - 1];
      r
  }

  /** The effect of a command: the store state after it, the system reply, and
      whether it started a refresh. */
  datatype Effect = Effect(state: StoreState, reply: string, refresh: bool)

  /** What one command does in store state s. */
  function Apply(s: StoreState, cmd: Command): Effect
  {
    match cmd
    case SetCityCmd(c) =>
      var name := Trim(c);
      Effect(s.(city := name, loading := true, error := None),
             "City set to " + name + " and data refreshed.", true)
    case FilterAqiCmd(d) =>
      var t := ParseInt(d);
      Effect(s.(aqiThreshold := Some(t)), "Showing stations with AQI > " + NumToString(t) + ".", false)
    case RadiusCmd(d) =>
      var km := ParseInt(d);
      Effect(s.(radiusKm := km), "Radius set to " + NumToString(km) + " km.", false)
    case ShowAnomaliesCmd =>
      Effect(s.(showAnomaliesOnly := true), "Highlighting anomalous stations.", false)
    case HideAnomaliesCmd =>
      Effect(s.(showAnomaliesOnly := false), "Showing all stations.", false)
    case SelectCmd(q0) =>
      var q := StripQuotes(Trim(q0));
      (match FindStation(s.stations, q)
       case Some(st) => Effect(s.(selectedId := Some(st.id)), "Selected station: " + st.name + ".", false)
       case None => Effect(s, "Station not found: " + q + ".", false))
    case UnknownCmd => Effect(s, DefaultReply, false)
  }

  /** What `handleSend` does with the lower-cased text in store state s. */
  function Respond(s: StoreState, text: string): Effect
  {
    Apply(s, Classify(text))
  }

  /** "filter aqi > N" and "radius N" store the decimal value of the digits,
      never NaN. */
  lemma NumericCommands(s: StoreState, text: string)
    ensures Classify(text).FilterAqiCmd? ==>
      Respond(s, text).state == s.(aqiThreshold := Some(Int(DigitsValue(Classify(text).digits))))
    ensures Classify(text).RadiusCmd? ==>
      Respond(s, text).state == s.(radiusKm := Int(DigitsValue(Classify(text).digits)))
  {
    var cmd := Classify(text);
    if cmd.FilterAqiCmd? || cmd.RadiusCmd? {
      ParseDigits(cmd.digits);
    }
  }

  /** "show anomalies" leaves the flag on and "hide anomalies" leaves it off,
      whatever it was, so sending either twice is the same as sending it once. */
  lemma ShowHideIdempotent(s: StoreState, text: string)
    requires Classify(text).ShowAnomaliesCmd? || Classify(text).HideAnomaliesCmd?
    ensures Respond(s, text).state == s.(showAnomaliesOnly := Classify(text).ShowAnomaliesCmd?)
    ensures Respond(Respond(s, text).state, text) == Respond(s, text)
  {
  }

  /** "select q" selects the first station whose id is q or whose name contains
      q; when there is none the state is unchanged and the reply says so. */
  lemma SelectCommand(s: StoreState, text: string)
    requires Classify(text).SelectCmd?
    ensures var q := StripQuotes(Trim(Classify(text).query));
      (FindStation(s.stations, q).Some? ==>
        Respond(s, text).state == s.(selectedId := Some(FindStation(s.stations, q).value.id)) &&
        (exists i :: 0 <= i < |s.stations| && StationMatches(s.stations[i], q))) &&
      (FindStation(s.stations, q).None? ==>
        Respond(s, text) == Effect(s, "Station not found: " + q + ".", false) &&
        forall i :: 0 <= i < |s.stations| ==> !StationMatches(s.stations[i], q))
  {
    var q := StripQuotes(Trim(Classify(text).query));
    var found := FindStation(s.stations, q);
    assert Respond(s, text) == Apply(s, SelectCmd(Classify(text).query));
    if found.Some? {
      assert Respond(s, text).state == s.(selectedId := Some(found.value.id));
    } else {
      assert Respond(s, text) == Effect(s, "Station not found: " + q + ".", false);
    }
  }

  /** A character `toLowerCase` leaves unchanged. */
  predicate IsLowerChar(c: char)
  {
    !('A' <= c <= 'Z')
  }

  lemma TrimKeepsCharacters(s: string)
    ensures forall k :: 0 <= k < |Trim(s)| ==> Trim(s)[k] in s
  {
    var t0 := TrimStart(s);
    var t := TrimEnd(t0);
    var off := |s| - |t0|;
    assert t == t0[..|t|] && t0 == s[off..];
    forall k | 0 <= k < |t| ensures t[k] in s {
      assert t[k] == s[off + k];
    }
  }

  /** A capture made of characters of a lower-cased text is lower-case, and so
      is its trimmed form. */
  lemma TrimmedCaptureIsLower(c: string, raw: string)
    requires forall k :: 0 <= k < |c| ==> c[k] in ToLower(raw)
    ensures forall k :: 0 <= k < |Trim(c)| ==> IsLowerChar(Trim(c)[k])
  {
    LowerTextIsLower(raw);
    TrimKeepsCharacters(c);
    var city := Trim(c);
    forall k | 0 <= k < |city| ensures IsLowerChar(city[k]) {
      var j :| 0 <= j < |c| && c[j] == city[k];
    }
  }

  /** Every character of a lower-cased text is one `toLowerCase` keeps. */
  lemma LowerTextIsLower(raw: string)
    ensures forall x :: x in ToLower(raw) ==> IsLowerChar(x)
  {
    var text := ToLower(raw);
    forall x | x in text ensures IsLowerChar(x) {
      var j :| 0 <= j < |text| && text[j] == x;
      assert x == LowerChar(raw[j]);
    }
  }

  lemma TrimEnds(s: string)
    ensures Trim(s) == [] || (!IsSpace(Trim(s)[0]) && !IsSpace(Trim(s)[|Trim(s)| - 1]))
  {
    var t0 := TrimStart(s);
    var t := TrimEnd(t0);
    if t != [] {
      assert t[0] == t0[0];
    }
  }

  /** "set city X" stores X trimmed and lower-cased, and starts a refresh. */
  lemma SetCityStoresLowerTrimmed(s: StoreState, input: string)
    requires Classify(ToLower(Trim(input))).SetCityCmd?
    ensures var city := Respond(s, ToLower(Trim(input))).state.city;
      (forall k :: 0 <= k < |city| ==> IsLowerChar(city[k])) &&
      (city == [] || (!IsSpace(city[0]) && !IsSpace(city[|city| - 1]))) &&
      Respond(s, ToLower(Trim(input))).refresh
  {
    var c := Classify(ToLower(Trim(input))).name;
    assert Respond(s, ToLower(Trim(input))).state.city == Trim(c);
    TrimmedCaptureIsLower(c, Trim(input));
    TrimEnds(c);
  }

  // ---------------------------------------------------------------------
  // The panel

  /** The two seed messages of the mount effect. */
  function SeedMessages(city: string): seq<Message>
  {
    [Message(SystemRole, "Hi, I'm EnviroWatch. I'm monitoring air quality in " + city + "."),
     Message(SystemRole, "Try commands like: set city San Jose, filter aqi > 100, show anomalies.")]
  }

  /** Two appends in a row append the pair. */
  lemma AppendTwo(m: seq<Message>, a: Message, b: Message)
    ensures m + [a] + [b] == m + [a, b]
  {
  }

  class ChatPanel {
    var messages: seq<Message>
    var input: string
    const store: AppStore

    /** The panel after its mount effect: the seed messages, empty input. */
    constructor(store: AppStore)
      ensures this.store == store
      ensures messages == SeedMessages(store.city) && input == ""
    {
      this.store := store;
      messages := SeedMessages(store.city);
      input := "";
    }

    /** `handleSend`. Blank input changes nothing. Otherwise the trimmed input
        is echoed, the input is cleared, the command is applied to the store
        and exactly one system reply follows; a "set city" returns the start of
        the refresh it triggered. */
    method HandleSend() returns (pending: Option<RefreshStart>)
      modifies this, store
      ensures Trim(old(input)) == [] ==>
        messages == old(messages) && input == old(input) && store.State() == old(store.State()) && pending.None?
      ensures Trim(old(input)) != [] ==>
        var r := Respond(old(store.State()), ToLower(Trim(old(input))));
        messages == old(messages) + [Message(UserRole, Trim(old(input))), Message(SystemRole, r.reply)] &&
        input == "" && store.State() == r.state &&
        pending == (if r.refresh then Some(RefreshStart(r.state.city, old(store.center))) else None)
    {
      var trimmed := Trim(input);
      if trimmed == [] {
        return None;
      }
      pending := Send(trimmed);
    }

    /** `handleSend` once the trimmed input is known to be non-empty. */
    method Send(trimmed: string) returns (pending: Option<RefreshStart>)
      modifies this, store
      ensures var r := Respond(old(store.State()), ToLower(trimmed));
        messages == old(messages) + [Message(UserRole, trimmed), Message(SystemRole, r.reply)] &&
        input == "" && store.State() == r.state &&
        pending == (if r.refresh then Some(RefreshStart(r.state.city, old(store.center))) else None)
    {
      ghost var m0 := messages;
      messages := messages + [Message(UserRole, trimmed)];
      input := "";
      var reply;
      reply, pending := RunCommand(ToLower(trimmed));
      messages := messages + [Message(SystemRole, reply)];
      AppendTwo(m0, Message(UserRole, trimmed), Message(SystemRole, reply));
    }

    /** The command chain of `handleSend`: the first rule that matches updates
        the store through its setters and yields the reply. */
    method RunCommand(text: string) returns (reply: string, pending: Option<RefreshStart>)
      modifies store
      ensures var r := Respond(old(store.State()), text);
        store.State() == r.state && reply == r.reply &&
        pending == (if r.refresh then Some(RefreshStart(r.state.city, old(store.center))) else None)
    {
      pending := None;
      var cityMatch := MatchCapture(text, "set city ", NotLineTerminator);
      if cityMatch.Some? {
        assert Classify(text) == SetCityCmd(cityMatch.value);
        var cityName := Trim(cityMatch.value);
        store.SetCity(cityName);
        var start := store.BeginRefresh();
        pending := Some(start);
        reply := "City set to " + cityName + " and data refreshed.";
        return;
      }
      reply := RunNumericCommand(text);
    }

    /** The "filter aqi >" and "radius" rules, after "set city" has failed. */
    method RunNumericCommand(text: string) returns (reply: string)
      requires MatchCapture(text, "set city ", NotLineTerminator).None?
      modifies store
      ensures var r := Respond(old(store.State()), text);
        store.State() == r.state && reply == r.reply && !r.refresh
    {
      var aqiMatch := MatchCapture(text, "filter aqi > ", IsDigit);
      if aqiMatch.Some? {
        assert Classify(text) == FilterAqiCmd(aqiMatch.value);
        var threshold := ParseInt(aqiMatch.value);
        store.SetThreshold(Some(threshold));
        reply := "Showing stations with AQI > " + NumToString(threshold) + ".";
        return;
      }
      var radiusMatch := MatchCapture(text, "radius ", IsDigit);
      if radiusMatch.Some? {
        assert Classify(text) == RadiusCmd(radiusMatch.value);
        var km := ParseInt(radiusMatch.value);
        store.SetRadius(km);
        reply := "Radius set to " + NumToString(km) + " km.";
        return;
      }
      reply := RunOtherCommand(text);
    }

    /** The two anomaly rules, after the city and numeric patterns have failed. */
    method RunOtherCommand(text: string) returns (reply: string)
      requires MatchCapture(text, "set city ", NotLineTerminator).None?
      requires MatchCapture(text, "filter aqi > ", IsDigit).None?
      requires MatchCapture(text, "radius ", IsDigit).None?
      modifies store
      ensures var r := Respond(old(store.State()), text);
        store.State() == r.state && reply == r.reply && !r.refresh
    {
      if Contains(text, "show anomalies") {
        assert Classify(text) == ShowAnomaliesCmd;
        if !store.showAnomaliesOnly {
          store.ToggleAnomaliesOnly();
        }
        reply := "Highlighting anomalous stations.";
        return;
      }
      if Contains(text, "hide anomalies") {
        assert Classify(text) == HideAnomaliesCmd;
        if store.showAnomaliesOnly {
          store.ToggleAnomaliesOnly();
        }
        reply := "Showing all stations.";
        return;
      }
      reply := RunSelectCommand(text);
    }

    /** The "select" rule and the default reply, after every other rule has
        failed. */
    method RunSelectCommand(text: string) returns (reply: string)
      requires MatchCapture(text, "set city ", NotLineTerminator).None?
      requires MatchCapture(text, "filter aqi > ", IsDigit).None?
      requires MatchCapture(text, "radius ", IsDigit).None?
      requires !Contains(text, "show anomalies") && !Contains(text, "hide anomalies")
      modifies store
      ensures var r := Respond(old(store.State()), text);
        store.State() == r.state && reply == r.reply && !r.refresh
    {
      ghost var s0 := store.State();
      var selectMatch := MatchCapture(text, "select ", NotLineTerminator);
      if selectMatch.Some? {
        assert Classify(text) == SelectCmd(selectMatch.value);
        var query := StripQuotes(Trim(selectMatch.value));
        var station := FindStation(store.stations, query);
        if station.Some? {
          assert Respond(s0, text) ==
            Effect(s0.(selectedId := Some(station.value.id)), "Selected station: " + station.value.name + ".", false);
          store.SetSelected(Some(station.value.id));
          reply := "Selected station: " + station.value.name + ".";
        } else {
          reply := "Station not found: " + query + ".";
        }
        return;
      }
      assert Classify(text) == UnknownCmd;
      reply := DefaultReply;
    }
  }
}
