# MQTT connection-liveness manager, modelled in Dafny

This project models `src/mqtt.cpp` of an ESP32 firmware base. That file keeps one
MQTT broker connection alive. It uses an application-level heartbeat: the device
publishes to `<root>/ping` and listens for the echo on its own subscription. The
file has four parts:

- the **tick supervisor** `mqttLoop`, a strict priority chain run once per tick:
  - Wi-Fi down: do nothing;
  - disconnected: reconnect at most once per 10 s;
  - connected, but nothing heard for more than 60 s: reconnect;
  - half the timeout since the last sign of life and since the last heartbeat:
    send a heartbeat;
- the **liveness events**: `onMqttConnect` stamps `mqLast` and subscribes to the
  heartbeat topic. `onMqttMessage` stamps `mqLast` only for the heartbeat topic;
- **topic-root management** `mqttSetTopic`: unsubscribe the old heartbeat topic,
  store the new root truncated to 64 characters, and resubscribe if connected;
- **root derivation** in `mqttSetup`: while no root is set, the identity with
  every `-` turned into `/` becomes the root.

The model has three modules.

- `Topics` (`topics.dfy`) holds the bounded C strings. It models `strncmp` and
  the three-part heartbeat-topic test, and proves that test equal to string
  equality. It models `strchr` and the in-place loop that rewrites dashes in the
  identity buffer (`ReplaceDashes`, over an `array<char>`). It also holds the
  buffer-size facts.
- `Liveness` (`liveness.dfy`) holds the `uint32_t` clock. `Elapsed` is
  subtraction modulo 2^32. `Decide` is the priority chain as a pure function and
  `Advance` gives the timers after a tick. `Trace` follows a run of ticks.
  Lemmas about whole runs prove that connection attempts are more than 10 s
  apart. They also prove that heartbeats are more than 30 s apart, even when a
  heartbeat is never echoed.
- `Mqtt` (`mqtt.dfy`) holds the module-level state as the class
  `ConnectionManager`, with fields `last` (`mqLast`), `ping` (`mqPing`),
  `topic` (`mqTopic`), `topicLen` (`mqTopicLen`) and the log `actions`. Each
  entry point is a method.
  - The inputs are the clock (`now`), `WiFi.isConnected()` (`wifi`) and
    `mqttClient.connected()` (`connected`).
  - Each call into the transport (`disconnect`, `connect`, `subscribe`,
    `unsubscribe`, `publish`) is appended to `actions` in the order it is issued.
  - `Loop` is proved against `Decide`, `Advance` and `Issued`.
  - Two client methods, `DerivedRootScenario` and `HeartbeatScenario`, drive
    the class through the identity `device-123` and a full connect and
    heartbeat cycle.

In one place the design intent and the code disagree, and the model follows the
code. The intent is that the first tick after boot connects at once. In the code,
`mqLast` starts at 0 and the test is a strict `> 10000`. So no attempt is made
until the clock has passed 10 s (`Liveness.BootBackoff`).

## Model

| member | source | states |
|---|---|---|
| Liveness.Elapsed | src/mqtt.cpp:91-102 | `millis() - t` on `uint32_t`: the plain difference when no wrap occurred, the difference plus 2^32 when the clock wrapped, and adding it back to `t` modulo 2^32 gives `now` |
| Liveness.Decide | src/mqtt.cpp:88-109 | each tick takes exactly one branch of the chain. For each branch it gives the complete condition: offline iff Wi-Fi is down. Retry iff disconnected and more than 10000 ms elapsed, else back off. Dead iff connected and more than 60000 ms since `mqLast`. Heartbeat iff connected, not dead, and more than 30000 ms since both `mqLast` and `mqPing` |
| Liveness.Trace | src/mqtt.cpp:88-111 | the timers across a run of ticks: the run starts from the given timers, and each tick's timers follow from the previous ones by one step |
| Liveness.LastHeldBetweenAttempts | src/mqtt.cpp:90-101 | during a run of ticks, `mqLast` changes only at a connection attempt (retry or dead-link reconnect) |
| Liveness.PingHeldBetweenPings | src/mqtt.cpp:102-108 | during a run of ticks, `mqPing` changes only when a heartbeat is published |
| Liveness.AttemptsSpaced | src/mqtt.cpp:90-101 | two consecutive connection attempts in a run with no transport events are more than 10000 ms apart on the 32-bit clock |
| Liveness.PingsSpaced | src/mqtt.cpp:102-109 | two consecutive heartbeats in a run with no transport events are more than 30000 ms apart, even when the first is never echoed |
| Liveness.BootBackoff | src/mqtt.cpp:88-96 | with both timers at their initial 0, a disconnected tick at or before 10000 ms makes no attempt |
| Liveness.UnansweredHeartbeat | src/mqtt.cpp:97-109 | the link was last heard from at t0, its last heartbeat went out more than 30 s before t0+31 s, and the next heartbeat is never echoed. A heartbeat goes out at t0+31 s. Nothing happens at t0+59 s. The link is declared dead at t0+61 s, for every t0 and every earlier heartbeat time on the wrapping clock |
| Topics.StrNEqPrefixes | src/mqtt.cpp:44 | `strncmp(a, b, n) == 0` holds iff the first `n` characters of each string, or all of a shorter one, are equal |
| Topics.PingTopicMatchesIff | src/mqtt.cpp:43-45 | the three-part test (length `mqTopicLen + 5`, prefix match, remainder `"/ping"`), with the length in sync with the root, holds iff the topic equals `root + "/ping"` |
| Topics.StrChr | src/mqtt.cpp:82 | `strchr` gives the first position at or after the start that holds the character, or none; no earlier position holds it |
| Topics.Slashed | src/mqtt.cpp:81-83 | the derived root has the identity's length and no `-`. It has `/` where the identity had `-` and the identity's character everywhere else |
| Topics.SlashedExample | src/mqtt.cpp:78-84 | identity `device-123` gives root `device/123` and heartbeat topic `device/123/ping` |
| Topics.ReplaceDashes | src/mqtt.cpp:82-83 | the strchr-driven loop rewrites the identity buffer in place into `Slashed` of its old contents |
| Topics.PublishBufferOverflow | src/mqtt.cpp:103-105 | as written: some root that `mqTopic` can store (up to 64 characters) gives a heartbeat topic that overflows the 47-byte publish buffer |
| Topics.PublishBufferLimit | src/mqtt.cpp:103-105 | the 47-byte publish buffer holds the heartbeat topic iff the root has at most 41 characters |
| Topics.PingTopicFitsSubscribeBuffer | src/mqtt.cpp:19-24 | the 75-byte buffer of the subscribe path holds the heartbeat topic of every storable root |
| Mqtt.ConnectionManager.constructor | src/mqtt.cpp:10-16 | initial state: `mqLast = mqPing = 0`, empty root with `mqTopicLen = 0`, no calls issued |
| Mqtt.ConnectionManager.SubPing | src/mqtt.cpp:19-24 | appends exactly one `subscribe(mqTopic + "/ping", 0)` and changes nothing else |
| Mqtt.ConnectionManager.OnConnect | src/mqtt.cpp:26-30 | sets `mqLast := now` and issues exactly one `subscribe(mqTopic + "/ping", 0)`; the root and `mqPing` are untouched |
| Mqtt.ConnectionManager.OnMessage | src/mqtt.cpp:37-49 | `mqLast := now` iff the topic equals `mqTopic + "/ping"`; no other state changes and no call is issued |
| Mqtt.ConnectionManager.SetTopic | src/mqtt.cpp:51-62 | the new root is the first `min(length of t, 64)` characters of `t`, and `mqTopicLen` stays equal to its length. `unsubscribe(old + "/ping")` is issued iff the old `mqTopicLen != 0`, and it comes before any subscribe. `subscribe(new + "/ping", 0)` is issued iff connected. Timers are untouched |
| Mqtt.ConnectionManager.Setup | src/mqtt.cpp:78-85 | when no root is set, the root becomes the identity with every `-` turned into `/`, subscribed iff connected. When a root is set, neither the root nor the log changes |
| Mqtt.ConnectionManager.Loop | src/mqtt.cpp:88-111 | one tick, in terms of the inputs and the old state. Wi-Fi down: no call and no change. Disconnected: `disconnect` then `connect` and `mqLast := now` exactly when more than 10000 ms have passed since `mqLast`, otherwise nothing; `mqPing` kept. Connected and more than 60000 ms since `mqLast`: `disconnect` then `connect`, `mqLast := now`, `mqPing` kept, nothing published. Connected and alive: `mqLast` kept, and one QoS 0, non-retained publish on `mqTopic + "/ping"` with `mqPing := now` exactly when more than 30000 ms have passed since both `mqLast` and `mqPing`, otherwise nothing. The root is untouched, and the timers are `Advance` of the old ones under the branch `Decide` selects |

## Left out

- Logging (`printf` calls) is observational only and is not modelled.
- Server and security configuration is not modelled: `setServer`, `setSecure`, `setPsk`, the `atoi` port parsing, and the copies of the identity and key into `mqIdent`/`mqPsk`. These are thin wrappers over the MQTT library.
- Registering the three callbacks is not modelled. Each handler and each tick is an atomic step on one thread of control.
- `onMqttDisconnect` only logs. It changes no state, so it has no counterpart in the model.
- The internals of `AsyncMqttClient` and `WiFi` are not modelled. Their status queries are boolean inputs, and their calls are log entries. The results of those calls are ignored by the source and by the model.
- The payload, QoS flags and chunking arguments of `onMqttMessage` are not modelled, because the core reads only the topic.
- Mqtt.ConnectionManager.Loop: the clock is read once per tick. The source calls `millis()` up to four times in one tick, so a tick that crosses a millisecond boundary stamps a slightly later time than the one it compared. The model does not capture that skew.
- Mqtt.ConnectionManager.Setup: the identity must have at most 40 characters. The source copies it with `strcpy` into a 41-byte buffer and does not guard against anything longer.
- Strings are the contents of C buffers up to the first NUL, so a topic with an embedded NUL is not represented.
- One Dafny `char` stands for one byte of a C buffer. The 64-byte root truncation, the 40-byte identity bound and the buffer sizes therefore count bytes; a multi-byte UTF-8 character would be several `char`s in the model.
- Mqtt.ConnectionManager.Loop: the heartbeat topic is built as in the subscribe path's 75-byte buffer. The 47-byte publish buffer as written overflows for roots longer than 41 characters (see Findings).

## Findings

| source | as written | input that shows it | evidently intended | confidence | as-written member | corrected member |
|---|---|---|---|---|---|---|
| src/mqtt.cpp:103-105 | the heartbeat topic is built with `strcpy`/`strcat` in `char topic[41+6]`, which holds at most 46 characters | a root of 64 characters stored through `mqttSetTopic` (which `mqTopic[65]` allows): `root + "/ping"` plus its terminator needs 70 bytes | a buffer as large as the subscribe path's `char topic[75]`, which holds the heartbeat topic of every root `mqTopic` can store | high, not executed | Topics.PublishBufferOverflow | Topics.PingTopicFitsSubscribeBuffer |
