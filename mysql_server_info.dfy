/**
  The MySQL front end of the proxy announces a server version string to every
  client in its initial handshake. This module models the registry that keeps
  that string per logical schema: a table from schema name to a formatted
  version string, with a default for schemas that were never registered.

  The proxy's own version is read from a global holder at the moment of each
  call; here it is an explicit `proxyVersion` argument, so that the model keeps
  the difference between a stored entry (formatted with the proxy version of the
  registering call) and the default (formatted anew on every lookup).
*/
module MySQLServerInfo {

  datatype Option<T> = None | Some(value: T)

  newtype uint8 = x: int | 0 <= x < 256

  /** Protocol version byte of the HandshakeV10 initial-handshake packet. */
  const ProtocolVersion: uint8 := 0x0A

  /** MySQL version announced for a schema that has no registered version. */
  const DefaultMySQLVersion: string := "5.6.23"

  /** What the pattern "%s-ShardingSphere-Proxy %s" puts between its two arguments. */
  const ProxyMarker: string := "-ShardingSphere-Proxy "

  /** The handshake protocol version is 10 and fits the one byte the packet gives it. */
  lemma ProtocolVersionIsTen()
    ensures ProtocolVersion as int == 10 && 0 <= ProtocolVersion as int < 256
  {
  }

  /** The default MySQL version is release 5.6.23. */
  lemma DefaultMySQLVersionIs5623()
    ensures DefaultMySQLVersion == "5.6.23" && |DefaultMySQLVersion| == 6
  {
  }

  /** The marker starts with a dash and ends with one space before the proxy version. */
  lemma ProxyMarkerShape()
    ensures ProxyMarker == "-ShardingSphere-Proxy "
    ensures |ProxyMarker| == 22 && ProxyMarker[0] == '-' && ProxyMarker[|ProxyMarker| - 1] == ' '
  {
  }

  /**
    The pattern "%s-ShardingSphere-Proxy %s" applied to a MySQL version and a
    proxy version: the MySQL version, then the marker, then the proxy version,
    each recoverable at its own position.
  */
  function FormatServerVersion(serverVersion: string, proxyVersion: string): (r: string)
    ensures |r| == |serverVersion| + |ProxyMarker| + |proxyVersion|
    ensures r[..|serverVersion|] == serverVersion
    ensures r[|serverVersion|..|serverVersion| + |ProxyMarker|] == ProxyMarker
    ensures r[|serverVersion| + |ProxyMarker|..] == proxyVersion
  {
    serverVersion + ProxyMarker + proxyVersion
  }

  /** Under one proxy version, distinct MySQL versions give distinct strings. */
  lemma FormatInjective(v1: string, v2: string, proxyVersion: string)
    requires FormatServerVersion(v1, proxyVersion) == FormatServerVersion(v2, proxyVersion)
    ensures v1 == v2
  {
  }

  /**
    Two formatted strings whose proxy versions have the same length are equal
    only when both the MySQL versions and the proxy versions agree.
  */
  lemma FormatDeterminesParts(v1: string, p1: string, v2: string, p2: string)
    requires |p1| == |p2|
    requires FormatServerVersion(v1, p1) == FormatServerVersion(v2, p2)
    ensures v1 == v2 && p1 == p2
  {
  }

  /** The version announced for an unregistered schema, built from the current proxy version. */
  function DefaultServerVersion(proxyVersion: string): (r: string)
    ensures r == "5.6.23-ShardingSphere-Proxy " + proxyVersion
  {
    FormatServerVersion(DefaultMySQLVersion, proxyVersion)
  }

  /** One registration: the arguments of a set call and the proxy version current at that call. */
  datatype SetCall = SetCall(schemaName: string, serverVersion: string, proxyVersion: string)

  /**
    The table after performing `calls` in order, starting from the empty table.
    Its keys are exactly the schemas that some call registered.
  */
  function Replay(calls: seq<SetCall>): (table: map<string, string>)
    ensures table.Keys == set c | c in calls :: c.schemaName
  {
    if calls == [] then map[]
    else
      var last := calls[|calls| - 1];
      Replay(calls[..|calls| - 1])[last.schemaName := FormatServerVersion(last.serverVersion, last.proxyVersion)]
  }

  /** The most recent call in `calls` that registered `schemaName`, if any. */
  function LastSetFor(calls: seq<SetCall>, schemaName: string): (r: Option<SetCall>)
    ensures r.Some? ==> r.value in calls && r.value.schemaName == schemaName
    ensures r.Some? ==>
      exists i :: 0 <= i < |calls| && calls[i] == r.value &&
        (forall j :: i < j < |calls| ==> calls[j].schemaName != schemaName)
    ensures r.None? <==> forall i :: 0 <= i < |calls| ==> calls[i].schemaName != schemaName
  {
    if calls == [] then None
    else if calls[|calls| - 1].schemaName == schemaName then Some(calls[|calls| - 1])
    else LastSetFor(calls[..|calls| - 1], schemaName)
  }

  /**
    Last write wins: a schema is in the table exactly when some call registered
    it, and its entry is the string formatted by the latest such call, with the
    proxy version of that call.
  */
  lemma {:induction false} ReplayLastWriteWins(calls: seq<SetCall>, schemaName: string)
    ensures schemaName in Replay(calls) <==> LastSetFor(calls, schemaName).Some?
    ensures schemaName in Replay(calls) ==>
      var c := LastSetFor(calls, schemaName).value;
      Replay(calls)[schemaName] == FormatServerVersion(c.serverVersion, c.proxyVersion)
  {
    if calls != [] {
      var last := calls[|calls| - 1];
      if last.schemaName != schemaName {
        ReplayLastWriteWins(calls[..|calls| - 1], schemaName);
      }
    }
  }

  /**
    Registering one schema twice is the same as registering it once with the
    second value: the first value is gone and no other key appears.
  */
  lemma SetTwiceLastWriteWins(calls: seq<SetCall>, schemaName: string,
                              v1: string, p1: string, v2: string, p2: string)
    ensures Replay(calls + [SetCall(schemaName, v1, p1), SetCall(schemaName, v2, p2)])
         == Replay(calls + [SetCall(schemaName, v2, p2)])
  {
    var first, second := SetCall(schemaName, v1, p1), SetCall(schemaName, v2, p2);
    var both := calls + [first, second];
    assert both[..|both| - 1] == calls + [first];
    assert (calls + [first])[..|calls|] == calls;
    assert (calls + [second])[..|calls|] == calls;
  }

  /** Registrations of two different schemas do not interfere: their order does not matter. */
  lemma SetDistinctSchemasCommute(calls: seq<SetCall>, a: SetCall, b: SetCall)
    requires a.schemaName != b.schemaName
    ensures Replay(calls + [a, b]) == Replay(calls + [b, a])
  {
    var ab, ba := calls + [a, b], calls + [b, a];
    assert ab[..|ab| - 1] == calls + [a];
    assert ba[..|ba| - 1] == calls + [b];
    assert (calls + [a])[..|calls|] == calls;
    assert (calls + [b])[..|calls|] == calls;
  }

  /**
    The registry of announced server versions. MySQLServerInfo keeps it in one
    static ConcurrentHashMap shared by the whole proxy process; here it is one
    object that every registration and lookup goes through.
  */
  class ServerInfo {
    /** Schema name to formatted server version. */
    var serverVersions: map<string, string>
    /** Every registration performed so far, oldest first. */
    ghost var history: seq<SetCall>

    /** The table is what the recorded registrations produce. */
    ghost predicate Valid()
      reads this
    {
      serverVersions == Replay(history)
    }

    /** The registry starts with no schema registered. */
    constructor ()
      ensures Valid() && history == [] && serverVersions == map[]
    {
      serverVersions := map[];
      history := [];
    }

    /**
      Store the formatted version for `schemaName`, replacing any earlier entry
      for it; every other schema keeps its entry or its absence.
    */
    method SetServerVersion(schemaName: string, serverVersion: string, proxyVersion: string)
      requires Valid()
      modifies this
      ensures Valid()
      ensures history == old(history) + [SetCall(schemaName, serverVersion, proxyVersion)]
      ensures schemaName in serverVersions
      ensures serverVersions[schemaName] == FormatServerVersion(serverVersion, proxyVersion)
      ensures serverVersions.Keys == old(serverVersions).Keys + {schemaName}
      ensures forall t :: t in old(serverVersions) && t != schemaName ==>
                serverVersions[t] == old(serverVersions)[t]
    {
      serverVersions := serverVersions[schemaName := FormatServerVersion(serverVersion, proxyVersion)];
      history := history + [SetCall(schemaName, serverVersion, proxyVersion)];
      assert history[..|history| - 1] == old(history);
    }

    /**
      The version announced for `schemaName`: the string stored by the latest
      registration of that schema, which keeps the proxy version current at
      that registration whatever `proxyVersion` is now; for a schema never
      registered, the default built from the current `proxyVersion`.
    */
    function GetServerVersion(schemaName: string, proxyVersion: string): (r: string)
      reads this
      requires Valid()
      ensures match LastSetFor(history, schemaName)
                case Some(c) => r == FormatServerVersion(c.serverVersion, c.proxyVersion)
                case None => r == DefaultServerVersion(proxyVersion)
    {
      ReplayLastWriteWins(history, schemaName);
      if schemaName in serverVersions then serverVersions[schemaName]
      else DefaultServerVersion(proxyVersion)
    }
  }

  /**
    What a caller can rely on, whatever was registered before: an entry stays
    as registered when the proxy version changes afterwards, and the lookup of
    any other schema is the same as before the registration.
  */
  method RegisterThenLookUp(info: ServerInfo, schemaName: string, other: string, serverVersion: string,
                            setTimeProxy: string, laterProxy: string)
    returns (registered: string, otherVersion: string)
    requires info.Valid()
    requires other != schemaName
    modifies info
    ensures info.Valid()
    ensures registered == serverVersion + "-ShardingSphere-Proxy " + setTimeProxy
    ensures otherVersion == old(info.GetServerVersion(other, laterProxy))
    ensures LastSetFor(old(info.history), other).None? ==>
              otherVersion == "5.6.23-ShardingSphere-Proxy " + laterProxy
  {
    info.SetServerVersion(schemaName, serverVersion, setTimeProxy);
    registered := info.GetServerVersion(schemaName, laterProxy);
    otherVersion := info.GetServerVersion(other, laterProxy);
  }
}
