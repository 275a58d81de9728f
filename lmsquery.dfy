/**
 * The client object and the two alarm operations built on the scheduler.
 *
 * The server is reached through `query`, given here as a function from the
 * command words and the player id to the reply; the HTTP exchange behind it
 * is not modelled.
 */
module LmsClient {
  import opened Strconv
  import opened Strings
  import opened Wire
  import opened Alarms

  /** A client for the server at `host:port`. */
  datatype Lmsquery = Lmsquery(host: string, port: Int64, serverUrl: string)

  /** The fields of a reply that the alarm operations read. */
  datatype QueryResult = QueryResult(AlarmsLoop: seq<Alarm>, Param2: string, Count: int)

  /** The server's reply to a command sent for a player. */
  type Query = (seq<string>, string) -> QueryResult

  const UrlScheme: string := "http://"
  const UrlPath: string := "/jsonrpc.js"

  /** The JSON-RPC endpoint of the server at `host:port`. */
  function ServerUrl(host: string, port: Int64): string {
    UrlScheme + host + ":" + Itoa(port) + UrlPath
  }

  /**
   * `CreateLms`: the URL is the scheme, the host, a colon, the port in
   * decimal and the JSON-RPC path; host and port can be read back from it.
   */
  function CreateLms(host: string, port: Int64): (l: Lmsquery)
    ensures l.host == host && l.port == port
    ensures var u := l.serverUrl;
            var n := |UrlScheme| + |host|;
            && |u| == n + 1 + |Itoa(port)| + |UrlPath|
            && u[..|UrlScheme|] == UrlScheme
            && u[|UrlScheme|..n] == host
            && u[n] == ':'
            && u[|u| - |UrlPath|..] == UrlPath
            && u[n + 1..|u| - |UrlPath|] == Itoa(port)
            && Atoi(u[n + 1..|u| - |UrlPath|]) == port
  {
    PiecesOfUrl(UrlScheme, host, Itoa(port), UrlPath);
    Lmsquery(host, port, ServerUrl(host, port))
  }

  /** Where each piece of `scheme + host + ":" + digits + path` sits. */
  lemma PiecesOfUrl(scheme: string, host: string, digits: string, path: string)
    ensures var u := scheme + host + ":" + digits + path;
            var n := |scheme| + |host|;
            && |u| == n + 1 + |digits| + |path|
            && u[..|scheme|] == scheme
            && u[|scheme|..n] == host
            && u[n] == ':'
            && u[|u| - |path|..] == path
            && u[n + 1..|u| - |path|] == digits
  {
  }

  lemma DropCommonPrefix(p: string, x: string, y: string)
    requires p + x == p + y
    ensures x == y
  {
    assert x == (p + x)[|p|..];
    assert y == (p + y)[|p|..];
  }

  lemma DropCommonSuffix(x: string, y: string, q: string)
    requires x + q == y + q
    ensures x == y
  {
    assert x == (x + q)[..|x|];
    assert y == (y + q)[..|y|];
  }

  /** A colon-free host is everything before the first colon. */
  lemma HostBeforeColon(host: string, tail: string)
    requires ':' !in host
    ensures Split(host + ([':'] + tail), ':')[0] == host
  {
    SplitAfterPlain(host, [':'] + tail, ':');
    assert Split([':'] + tail, ':')[0] == [];
    assert host + [] == host;
  }

  /** In `scheme + host + ":" + digits + path`, a colon-free host and the digits are fixed. */
  lemma UrlPartsDetermined(scheme: string, path: string, host1: string, digits1: string, host2: string, digits2: string)
    requires ':' !in host1 && ':' !in host2
    requires scheme + host1 + ":" + digits1 + path == scheme + host2 + ":" + digits2 + path
    ensures host1 == host2 && digits1 == digits2
  {
    var tail1, tail2 := digits1 + path, digits2 + path;
    var v1, v2 := host1 + ([':'] + tail1), host2 + ([':'] + tail2);
    assert scheme + host1 + ":" + digits1 + path == scheme + v1;
    assert scheme + host2 + ":" + digits2 + path == scheme + v2;
    DropCommonPrefix(scheme, v1, v2);
    HostBeforeColon(host1, tail1);
    HostBeforeColon(host2, tail2);
    assert v1 == (host1 + [':']) + tail1;
    assert v2 == (host2 + [':']) + tail2;
    DropCommonPrefix(host1 + [':'], tail1, tail2);
    DropCommonSuffix(digits1, digits2, path);
  }

  /** Two servers with colon-free host names share a URL only if host and port agree. */
  lemma ServerUrlIdentifiesServer(host1: string, port1: Int64, host2: string, port2: Int64)
    requires ':' !in host1 && ':' !in host2
    requires ServerUrl(host1, port1) == ServerUrl(host2, port2)
    ensures host1 == host2 && port1 == port2
  {
    var d1, d2 := Itoa(port1), Itoa(port2);
    UrlPartsDetermined(UrlScheme, UrlPath, host1, d1, host2, d2);
    assert Atoi(d1) == Atoi(d2);
  }

  const AlarmsEnabledPref: string := "alarmsEnabled"

  function PlayerPrefArgs(pref: string): seq<string> {
    ["playerpref", pref, "?"]
  }

  /** `GetPlayerPref`: the value comes back in the reply's `_p2`. */
  function GetPlayerPref(query: Query, playerId: string, pref: string): string {
    query(PlayerPrefArgs(pref), playerId).Param2
  }

  /** The command words of a preference query, quoted and separated. */
  lemma PlayerPrefWords(pref: string)
    ensures QuotedList(PlayerPrefArgs(pref)) == "\"playerpref\", \"" + pref + "\", \"?\""
  {
    var args := PlayerPrefArgs(pref);
    assert args[1..] == [pref, "?"] && args[1..][1..] == ["?"];
    calc {
      QuotedList(args);
      Quote("playerpref") + ", " + QuotedList([pref, "?"]);
      Quote("playerpref") + ", " + (Quote(pref) + ", " + Quote("?"));
    }
  }

  /**
   * For the command of `GetPlayerPref`, `MarshalJSON` writes `["<player>",
   * ["playerpref", "<pref>", "?"]]`; for quote-free names that text reads
   * back through `Unmarshal` as the command.
   */
  lemma PlayerPrefRequest(playerId: string, pref: string)
    ensures Marshalled(CommandArgs(playerId, PlayerPrefArgs(pref)))
            == "[\"" + playerId + "\", [" + ("\"playerpref\", \"" + pref + "\", \"?\"") + "]]"
    ensures '"' !in playerId && '"' !in pref ==>
              Unmarshal(Marshalled(CommandArgs(playerId, PlayerPrefArgs(pref))))
              == Some(CommandArgs(playerId, ["playerpref", pref, "?"]))
  {
    PlayerPrefWords(pref);
    var ca := CommandArgs(playerId, PlayerPrefArgs(pref));
    if '"' !in playerId && '"' !in pref {
      assert QuoteFree(ca);
      MarshalRoundTrip(ca);
    }
  }

  /** The player has alarms switched off altogether. */
  predicate AlarmsDisabled(query: Query, playerId: string) {
    GetPlayerPref(query, playerId, AlarmsEnabledPref) == "0"
  }

  /** The command words of the alarms query. */
  function AlarmsArgs(enabled: bool): seq<string> {
    ["alarms", "0", "99", if enabled then "filter:enabled" else "filter:all"]
  }

  /**
   * `GetAlarms`: with `enabled`, first ask for the player's alarmsEnabled
   * preference and stop with `(0, nil)` when it is "0"; otherwise fetch the
   * alarms, all or only the enabled ones, and annotate them. `sent` lists the
   * commands sent, in order.
   */
  method GetAlarms(query: Query, playerId: string, enabled: bool, midnight: int, now: int)
    returns (count: int, alarms: seq<Alarm>, ghost sent: seq<CommandArgs>)
    requires !(enabled && AlarmsDisabled(query, playerId)) ==>
               AllTerminate(query(AlarmsArgs(enabled), playerId).AlarmsLoop, midnight, now)
    ensures enabled && AlarmsDisabled(query, playerId) ==> count == 0 && alarms == []
    ensures !(enabled && AlarmsDisabled(query, playerId)) ==>
              var res := query(["alarms", "0", "99", if enabled then "filter:enabled" else "filter:all"], playerId);
              count == res.Count && alarms == Annotated(res.AlarmsLoop, midnight, now)
    ensures enabled && AlarmsDisabled(query, playerId) ==>
              sent == [CommandArgs(playerId, ["playerpref", "alarmsEnabled", "?"])]
    ensures !(enabled && AlarmsDisabled(query, playerId)) ==>
              sent == (if enabled then [CommandArgs(playerId, ["playerpref", "alarmsEnabled", "?"])] else [])
                      + [CommandArgs(playerId, ["alarms", "0", "99", if enabled then "filter:enabled" else "filter:all"])]
  {
    sent := [];
    var filter := "";
    if enabled {
      sent := sent + [CommandArgs(playerId, PlayerPrefArgs(AlarmsEnabledPref))];
      if GetPlayerPref(query, playerId, AlarmsEnabledPref) == "0" {
        count, alarms := 0, [];
        return;
      }
      filter := "filter:enabled";
    } else {
      filter := "filter:all";
    }
    var args := ["alarms", "0", "99", filter];
    sent := sent + [CommandArgs(playerId, args)];
    var res := query(args, playerId);
    count := res.Count;
    var loop := new Alarm[|res.AlarmsLoop|](i requires 0 <= i < |res.AlarmsLoop| => res.AlarmsLoop[i]);
    assert loop[..] == res.AlarmsLoop;
    AnnotateAlarms(loop, midnight, now);
    alarms := loop[..];
  }

  /**
   * `GetNextAlarm`: fetch the player's alarms with the enabled filter and
   * pick the one with the earliest `NextExecution`, the first on a tie;
   * `(false, zero record)` when there is none.
   */
  method GetNextAlarm(query: Query, playerId: string, midnight: int, now: int)
    returns (found: bool, next: Alarm)
    requires !AlarmsDisabled(query, playerId) ==>
               AllTerminate(query(AlarmsArgs(true), playerId).AlarmsLoop, midnight, now)
    ensures AlarmsDisabled(query, playerId) ==> !found && next == ZeroAlarm()
    ensures !AlarmsDisabled(query, playerId) ==>
              var s := Annotated(query(["alarms", "0", "99", "filter:enabled"], playerId).AlarmsLoop, midnight, now);
              && (found <==> s != [])
              && (found ==> exists i :: IsFirstMinimum(s, i) && next == s[i])
              && (!found ==> next == ZeroAlarm())
  {
    var count, alarms, sent := GetAlarms(query, playerId, true, midnight, now);
    found, next := SelectNextAlarm(alarms);
  }
}
