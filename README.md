# MySQL server-version registry of the ShardingSphere proxy

The MySQL front end of ShardingSphere-Proxy tells each client a server version
string in the initial handshake. `MySQLServerInfo` keeps that string per logical
schema. `setServerVersion(schema, v)` stores `v + "-ShardingSphere-Proxy " + P`,
where `P` is the proxy version at the time of the call. `getServerVersion(schema)`
returns the stored string. For a schema with no entry it returns the default
`"5.6.23-ShardingSphere-Proxy " + P`, built from the proxy version at the time of
the lookup. The class also fixes the protocol version byte of the HandshakeV10
packet to `0x0A` (`MySQLServerInfo.ProtocolVersion`, a constant of a one-byte
type).

`mysql_server_info.dfy` (module `MySQLServerInfo`) models this as follows:

- The pattern `"%s-ShardingSphere-Proxy %s"` becomes `FormatServerVersion`. Its
  arguments are strings, so it is exact concatenation.
- The static table becomes the field `serverVersions` of one `ServerInfo` object.
  The static initializer becomes the constructor, which leaves the table empty.
- The global proxy-version holder becomes a `proxyVersion` argument to each call.
- A ghost `history` records every registration. `Valid()` says that the table is
  what `Replay(history)` builds. This lets the lookup's contract speak of "the
  latest registration of this schema".
- The getters are functions, so they cannot change the table.

## Model

| member | source | states |
|---|---|---|
| MySQLServerInfo.ProtocolVersionIsTen | shardingsphere-db-protocol/shardingsphere-db-protocol-mysql/src/main/java/org/apache/shardingsphere/db/protocol/mysql/constant/MySQLServerInfo.java:35-37 | the handshake protocol version constant is 10 (0x0A); the model gives it the one-byte type `uint8` where the source declares an `int`, and the value is unchanged |
| MySQLServerInfo.DefaultMySQLVersionIs5623 | shardingsphere-db-protocol/shardingsphere-db-protocol-mysql/src/main/java/org/apache/shardingsphere/db/protocol/mysql/constant/MySQLServerInfo.java:41 | the MySQL version announced by default is "5.6.23" |
| MySQLServerInfo.ProxyMarkerShape | shardingsphere-db-protocol/shardingsphere-db-protocol-mysql/src/main/java/org/apache/shardingsphere/db/protocol/mysql/constant/MySQLServerInfo.java:43 | the text the version pattern puts between its two arguments is "-ShardingSphere-Proxy ", ending in one space before the proxy version |
| MySQLServerInfo.FormatServerVersion | shardingsphere-db-protocol/shardingsphere-db-protocol-mysql/src/main/java/org/apache/shardingsphere/db/protocol/mysql/constant/MySQLServerInfo.java:43 | the formatted string is the MySQL version, then "-ShardingSphere-Proxy ", then the proxy version, each at its own position, and the length is the sum of the three |
| MySQLServerInfo.FormatInjective | shardingsphere-db-protocol/shardingsphere-db-protocol-mysql/src/main/java/org/apache/shardingsphere/db/protocol/mysql/constant/MySQLServerInfo.java:43 | under one proxy version, different MySQL versions are announced as different strings |
| MySQLServerInfo.FormatDeterminesParts | shardingsphere-db-protocol/shardingsphere-db-protocol-mysql/src/main/java/org/apache/shardingsphere/db/protocol/mysql/constant/MySQLServerInfo.java:43 | when the proxy versions have equal length, equal formatted strings mean equal MySQL versions and equal proxy versions |
| MySQLServerInfo.DefaultServerVersion | shardingsphere-db-protocol/shardingsphere-db-protocol-mysql/src/main/java/org/apache/shardingsphere/db/protocol/mysql/constant/MySQLServerInfo.java:62-64 | the default version is exactly "5.6.23-ShardingSphere-Proxy " followed by the given proxy version |
| MySQLServerInfo.Replay | shardingsphere-db-protocol/shardingsphere-db-protocol-mysql/src/main/java/org/apache/shardingsphere/db/protocol/mysql/constant/MySQLServerInfo.java:53-55 | after a sequence of registrations from the empty table, the keys are exactly the registered schemas: none lost, none added |
| MySQLServerInfo.LastSetFor | shardingsphere-db-protocol/shardingsphere-db-protocol-mysql/src/main/java/org/apache/shardingsphere/db/protocol/mysql/constant/MySQLServerInfo.java:53-55 | the latest registration of a schema is one of the calls, names that schema, and no later call names it; there is none exactly when no call names the schema |
| MySQLServerInfo.ReplayLastWriteWins | shardingsphere-db-protocol/shardingsphere-db-protocol-mysql/src/main/java/org/apache/shardingsphere/db/protocol/mysql/constant/MySQLServerInfo.java:53-55 | a schema has an entry if and only if some call registered it, and its entry is the string formatted by the latest such call with that call's proxy version |
| MySQLServerInfo.SetTwiceLastWriteWins | shardingsphere-db-protocol/shardingsphere-db-protocol-mysql/src/main/java/org/apache/shardingsphere/db/protocol/mysql/constant/MySQLServerInfo.java:54 | registering a schema twice gives the same table as registering only the second value: the first value is gone and no extra key appears |
| MySQLServerInfo.SetDistinctSchemasCommute | shardingsphere-db-protocol/shardingsphere-db-protocol-mysql/src/main/java/org/apache/shardingsphere/db/protocol/mysql/constant/MySQLServerInfo.java:54 | registrations of two different schemas give the same table in either order |
| MySQLServerInfo.ServerInfo.constructor | shardingsphere-db-protocol/shardingsphere-db-protocol-mysql/src/main/java/org/apache/shardingsphere/db/protocol/mysql/constant/MySQLServerInfo.java:45 | the registry starts empty, with no registrations recorded |
| MySQLServerInfo.ServerInfo.SetServerVersion | shardingsphere-db-protocol/shardingsphere-db-protocol-mysql/src/main/java/org/apache/shardingsphere/db/protocol/mysql/constant/MySQLServerInfo.java:53-55 | the schema's entry becomes the version formatted with the current proxy version; the keys gain only that schema; every other schema keeps its entry or its absence; the invariant is kept |
| MySQLServerInfo.ServerInfo.GetServerVersion | shardingsphere-db-protocol/shardingsphere-db-protocol-mysql/src/main/java/org/apache/shardingsphere/db/protocol/mysql/constant/MySQLServerInfo.java:72-74 | for a registered schema, the string formatted by its latest registration with the proxy version of that registration, whatever the proxy version is now; otherwise the default built from the current proxy version; reads the table without changing it |
| MySQLServerInfo.RegisterThenLookUp | shardingsphere-db-protocol/shardingsphere-db-protocol-mysql/src/main/java/org/apache/shardingsphere/db/protocol/mysql/constant/MySQLServerInfo.java:53-74 | on any registry, after a registration under one proxy version, a lookup under a later proxy version returns the version with the earlier proxy version; the lookup of any other schema is what it was before, and for a schema never registered it is "5.6.23-ShardingSphere-Proxy " with the later proxy version |

## Left out

- MySQLServerInfo.ProtocolVersionIsTen: the constant is modelled as a one-byte `uint8` rather than a 32-bit `int`, because the handshake packet carries it in one byte; its value 10 is the same.
- `DEFAULT_CHARSET` (line 39): the character-set enum it refers to is not part of this model, and the constant has no behaviour.
- Thread safety of the `ConcurrentHashMap` (line 45): the table is modelled as a sequential map. Calls are assumed not to overlap.
- Where the proxy version comes from (`CommonConstants.PROXY_VERSION`, lines 54 and 63): it is a plain string argument to each call.
- Null schema names or versions: Dafny strings cannot be null. The source would throw on a null key (the concurrent map refuses null keys and values) and would format a null version as "null"; neither is modelled.
- The static, process-wide nature of the table: the model uses one `ServerInfo` object, and all calls go through it.
- `getOrDefault` builds the default string even when the schema has an entry. Building it has no observable effect, so the model builds it only when it is needed.
