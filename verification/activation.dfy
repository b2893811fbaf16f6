/** The activation-code side of routers/code.py: the counter that hands out
    nine-digit codes, the guard of the code-status stream, the frames that
    stream emits, and the release of its subscription. */
module Activation {
  import opened Outcomes
  import opened Schemas
  import opened Store
  import opened Devices

  // ---------------------------------------------------------------------------
  // get_unique_activation_code

  /** The range `random.randint(100_000_000, 900_000_000)` draws a seed from. */
  const SeedMax: int := 900_000_000

  predicate SeedOk(seed: int)
  {
    CodeMin <= seed <= SeedMax
  }

  /** One request: an absent counter is first seeded with `seed`; the counter
      is incremented; when the increment reaches 999_999_999 the counter is
      reseeded with `reseed` and incremented again. Returns the stored counter
      and the code handed out. */
  function NextCode(counter: Option<int>, seed: int, reseed: int): (r: (Option<int>, int))
    requires SeedOk(seed) && SeedOk(reseed)
    ensures r.0 == Some(r.1)
    ensures r.1 < CodeMax
  {
    var start := if counter.None? then seed else counter.value;
    var code := start + 1;
    if code >= CodeMax then (Some(reseed + 1), reseed + 1) else (Some(code), code)
  }

  /** The counter stays in range, and every code handed out lies inside the
      bounds of DeviceCodeOutput (and of DeviceInput), never 999_999_999. */
  lemma NextCodeKeepsCounterOk(counter: Option<int>, seed: int, reseed: int)
    requires CounterOk(counter) && SeedOk(seed) && SeedOk(reseed)
    ensures CounterOk(NextCode(counter, seed, reseed).0)
    ensures CodeOk(NextCode(counter, seed, reseed).1)
    ensures CodeMin < NextCode(counter, seed, reseed).1 < CodeMax
  {
  }

  /** On first use the code is the seed plus one. */
  lemma FirstCodeFollowsSeed(seed: int, reseed: int)
    requires SeedOk(seed) && SeedOk(reseed)
    ensures NextCode(None, seed, reseed).1 == seed + 1
  {
  }

  /** Without a wrap, the code is the previous counter plus one, so codes
      strictly increase; on a wrap it is the fresh seed plus one. */
  lemma NextCodeIncrements(v: int, seed: int, reseed: int)
    requires SeedOk(seed) && SeedOk(reseed)
    ensures v + 1 < CodeMax ==> NextCode(Some(v), seed, reseed).1 == v + 1
    ensures v + 1 >= CodeMax ==> NextCode(Some(v), seed, reseed).1 == reseed + 1
  {
  }

  /** The seeds drawn by one request: the first is used only when the
      counter is absent, the second only on a wrap. */
  datatype Draw = Draw(seed: int, reseed: int)

  predicate DrawsOk(draws: seq<Draw>)
  {
    forall i :: 0 <= i < |draws| ==> SeedOk(draws[i].seed) && SeedOk(draws[i].reseed)
  }

  /** The codes handed out by consecutive requests. */
  function Issue(counter: Option<int>, draws: seq<Draw>): (codes: seq<int>)
    requires DrawsOk(draws)
    ensures |codes| == |draws|
    decreases |draws|
  {
    if draws == [] then []
    else
      var (counter', code) := NextCode(counter, draws[0].seed, draws[0].reseed);
      [code] + Issue(counter', draws[1..])
  }

  /** As long as the counter does not reach 999_999_999, consecutive requests
      receive consecutive codes, so no code is handed out twice. */
  lemma {:induction false} IssueCounts(v: int, draws: seq<Draw>)
    requires DrawsOk(draws)
    requires v + |draws| < CodeMax
    ensures forall i :: 0 <= i < |draws| ==> Issue(Some(v), draws)[i] == v + 1 + i
    decreases |draws|
  {
    if draws != [] {
      IssueCounts(v + 1, draws[1..]);
    }
  }

  lemma IssueDistinctWithoutWrap(v: int, draws: seq<Draw>)
    requires DrawsOk(draws)
    requires v + |draws| < CodeMax
    ensures forall i, j :: 0 <= i < j < |draws| ==> Issue(Some(v), draws)[i] < Issue(Some(v), draws)[j]
  {
    IssueCounts(v, draws);
  }

  /** Codes are not unique across a wrap: after a reseed the counter may land
      on a code handed out before. */
  lemma CodeRepeatsAfterWrap()
    ensures var codes := Issue(Some(CodeMin), [Draw(CodeMin, CodeMin), Draw(CodeMin, CodeMin)]);
            codes[0] == codes[1] - 1
    ensures var codes := Issue(Some(CodeMax - 1), [Draw(CodeMin, CodeMin), Draw(CodeMin, CodeMin)]);
            codes[0] == CodeMin + 1 && codes[1] == CodeMin + 2
    ensures Issue(Some(CodeMin), [Draw(CodeMin, CodeMin)])[0]
         == Issue(Some(CodeMax - 1), [Draw(CodeMin, CodeMin)])[0]
  {
  }

  // ---------------------------------------------------------------------------
  // get_device_status_by_code: the guard

  /** GET /code/{code}/status: refused with 400 when someone already listens
      on the code's channel; otherwise the stream takes the one subscription. */
  function OpenCodeStream(st: State, code: string): (r: Result<State>)
    ensures Subscribers(st.redis, CodeChannel(code)) != 0 <==> r == Err(CodeUnavailable)
    ensures r.Ok? ==> Subscribers(r.value.redis, CodeChannel(code)) == 1
    ensures r.Ok? ==> forall c :: c != CodeChannel(code) ==> Subscribers(r.value.redis, c) == Subscribers(st.redis, c)
    ensures r.Ok? ==> r.value.db == st.db && r.value.redis.log == st.redis.log && r.value.redis.online == st.redis.online
  {
    if Subscribers(st.redis, CodeChannel(code)) != 0 then Err(CodeUnavailable)
    else Ok(st.(redis := Subscribe(st.redis, CodeChannel(code))))
  }

  /** One waiting client per code: a second stream on the same code is
      refused while the first one listens. */
  lemma SecondCodeStreamRefused(st: State, code: string)
    requires OpenCodeStream(st, code).Ok?
    ensures OpenCodeStream(OpenCodeStream(st, code).value, code) == Err(CodeUnavailable)
  {
  }

  /** The handshake: once a client waits on a code, activating a device with
      that code is not refused as unawaited, and its credentials go to the
      channel the client listens on. */
  lemma ActivationReachesWaitingClient(st: State, data: DeviceInput, draws: seq<string>, now: int)
    requires st.db.devices.Valid()
    requires DeviceInputOk(data)
    requires exists i :: 0 <= i < |draws| && !ApiKeyTaken(st.db, draws[i])
    requires OpenCodeStream(st, Decimal(data.code)).Ok?
    ensures var waiting := OpenCodeStream(st, Decimal(data.code)).value;
            && CreateDevice(waiting, data, draws, now) != Err(NoClientAwaiting(data.code))
            && (CreateDevice(waiting, data, draws, now).Ok? <==> !DeviceNameTaken(st.db, data.name))
            && (CreateDevice(waiting, data, draws, now).Ok? ==>
                  var log' := CreateDevice(waiting, data, draws, now).value.0.redis.log;
                  && |log'| == |st.redis.log| + 1
                  && log'[|st.redis.log|].channel == CodeChannel(Decimal(data.code))
                  && log'[|st.redis.log|].message.name == data.name)
  {
    var waiting := OpenCodeStream(st, Decimal(data.code)).value;
    assert Subscribers(waiting.redis, CodeChannelOf(data.code)) == 1;
  }

  // ---------------------------------------------------------------------------
  // get_device_status_by_code: the frames

  const HeartbeatWord: string := "heartbeat"
  /** "event: heartbeat\ndata: heartbeat\n\n" */
  const HeartbeatFrame: string := "event: " + HeartbeatWord + "\ndata: " + HeartbeatWord + "\n\n"
  const TimeoutItem: string := "TIMEOUT"

  /** The frame the listener queues for a published message. */
  function MessageFrame(data: string): string
  {
    "event: message\ndata: " + data + "\n\n"
  }

  /** `json.dumps({"name": ..., "api_key": ...})` for names and keys that need
      no escaping. */
  function CredentialsJson(name: string, key: string): string
  {
    "{\"name\": \"" + name + "\", \"api_key\": \"" + key + "\"}"
  }

  /** `word` occurs in `s` starting at position `i`. */
  predicate OccursAt(s: string, word: string, i: int)
  {
    0 <= i && i + |word| <= |s| && s[i..i + |word|] == word
  }

  /** Python's `word in s`: `word` occurs in `s` as a contiguous substring. */
  predicate Contains(s: string, word: string)
  {
    exists i | 0 <= i <= |s| - |word| :: OccursAt(s, word, i)
  }

  lemma ContainsInside(before: string, word: string, after: string)
    ensures Contains(before + word + after, word)
  {
    var s := before + word + after;
    assert s[|before|..|before| + |word|] == word;
    assert OccursAt(s, word, |before|);
  }

  /** The substring search, written as a scan over the start positions. */
  method ContainsWord(s: string, word: string) returns (found: bool)
    ensures found <==> Contains(s, word)
  {
    var i := 0;
    while i + |word| <= |s|
      invariant 0 <= i
      invariant forall j :: 0 <= j < i ==> !OccursAt(s, word, j)
      decreases |s| - i
    {
      if s[i..i + |word|] == word {
        assert OccursAt(s, word, i);
        return true;
      }
      i := i + 1;
    }
    return false;
  }

  /** The generator's loop as written: the TIMEOUT item ends the stream
      without being sent; any other item is sent, and the stream ends right
      after an item that does not contain the word "heartbeat". */
  function StreamAsWritten(items: seq<string>): (out: seq<string>)
    ensures |out| <= |items| && out == items[..|out|]
    ensures TimeoutItem !in out
    ensures forall i :: 0 <= i < |out| - 1 ==> Contains(out[i], HeartbeatWord)
    decreases |items|
  {
    if items == [] || items[0] == TimeoutItem then []
    else if !Contains(items[0], HeartbeatWord) then [items[0]]
    else
      var rest := StreamAsWritten(items[1..]);
      assert forall i :: 0 <= i < |rest| ==> rest[i] == items[1 + i];
      [items[0]] + rest
  }

  /** One step of the loop: a heartbeat-bearing item is sent and the loop
      goes on with the rest of the queue. */
  lemma AsWrittenStep(items: seq<string>, i: int)
    requires 0 <= i < |items|
    requires items[i] != TimeoutItem && Contains(items[i], HeartbeatWord)
    ensures StreamAsWritten(items[i..]) == [items[i]] + StreamAsWritten(items[i + 1..])
  {
    assert items[i..][1..] == items[i + 1..];
  }

  /** The loop executed over the queue, one item at a time. */
  method EmitFrames(items: seq<string>) returns (out: seq<string>)
    ensures out == StreamAsWritten(items)
  {
    out := [];
    var i := 0;
    while i < |items|
      invariant 0 <= i <= |items|
      invariant out == items[..i]
      invariant StreamAsWritten(items) == out + StreamAsWritten(items[i..])
      decreases |items| - i
    {
      var item := items[i];
      if item == TimeoutItem {
        return;
      }
      var hasWord := ContainsWord(item, HeartbeatWord);
      if !hasWord {
        out := out + [item];
        return;
      }
      AsWrittenStep(items, i);
      out := out + [item];
      assert items[..i + 1] == items[..i] + [item];
      i := i + 1;
    }
  }

  /** The loop as evidently intended: heartbeats are passed on, and the
      stream ends right after the first frame that is not a heartbeat. */
  function StreamIntended(items: seq<string>): (out: seq<string>)
    ensures |out| <= |items| && out == items[..|out|]
    ensures TimeoutItem !in out
    ensures forall i :: 0 <= i < |out| - 1 ==> out[i] == HeartbeatFrame
    decreases |items|
  {
    if items == [] || items[0] == TimeoutItem then []
    else if items[0] != HeartbeatFrame then [items[0]]
    else
      var rest := StreamIntended(items[1..]);
      assert forall i :: 0 <= i < |rest| ==> rest[i] == items[1 + i];
      [items[0]] + rest
  }

  /** The intended stream ends with the first message frame: what it sends
      is a run of heartbeats and then at most that one frame. */
  lemma {:induction false} IntendedStopsAtMessage(items: seq<string>, k: int)
    requires 0 <= k < |items|
    requires forall i :: 0 <= i < k ==> items[i] == HeartbeatFrame
    requires items[k] != HeartbeatFrame && items[k] != TimeoutItem
    ensures StreamIntended(items) == items[..k + 1]
    decreases k
  {
    if k > 0 {
      IntendedStopsAtMessage(items[1..], k - 1);
      assert items[..k + 1] == [items[0]] + items[1..][..k];
    }
  }

  /** The two loops agree whenever no frame other than a heartbeat carries
      the word "heartbeat". */
  lemma {:induction false} StreamsAgree(items: seq<string>)
    requires forall i :: 0 <= i < |items| && items[i] != HeartbeatFrame ==> !Contains(items[i], HeartbeatWord)
    ensures StreamAsWritten(items) == StreamIntended(items)
    decreases |items|
  {
    if items != [] && items[0] != TimeoutItem && items[0] == HeartbeatFrame {
      HeartbeatFrameContainsWord();
      StreamsAgree(items[1..]);
    }
  }

  lemma HeartbeatFrameContainsWord()
    ensures Contains(HeartbeatFrame, HeartbeatWord)
  {
    var tail := "\ndata: " + HeartbeatWord + "\n\n";
    assert HeartbeatFrame == "event: " + HeartbeatWord + tail;
    ContainsInside("event: ", HeartbeatWord, tail);
  }

  /** The name inside a credentials frame is found by the substring test. */
  lemma CredentialsFrameContainsName(name: string, key: string)
    ensures Contains(MessageFrame(CredentialsJson(name, key)), name)
  {
    var head := "event: message\ndata: " + "{\"name\": \"";
    var tail := "\", \"api_key\": \"" + key + "\"}" + "\n\n";
    assert MessageFrame(CredentialsJson(name, key)) == head + name + tail;
    ContainsInside(head, name, tail);
  }

  /** A message frame is neither a heartbeat frame nor the TIMEOUT item. */
  lemma MessageFrameNotControl(data: string)
    ensures MessageFrame(data) != HeartbeatFrame && MessageFrame(data) != TimeoutItem
  {
    var head := "event: message\ndata: ";
    assert MessageFrame(data)[..|head|] == head;
    assert HeartbeatFrame[7] == 'h';
    assert TimeoutItem[0] == 'T';
  }

  /** A device named "heartbeat": the credentials frame contains the word,
      so the stream as written does not end after delivering it and keeps
      the client waiting on heartbeats, while the intended stream ends. */
  lemma StreamAsWrittenMissesCredentials(key: string)
    ensures var m := MessageFrame(CredentialsJson(HeartbeatWord, key));
            var items := [m, HeartbeatFrame, HeartbeatFrame, TimeoutItem];
            && StreamAsWritten(items) == [m, HeartbeatFrame, HeartbeatFrame]
            && StreamIntended(items) == [m]
  {
    var m := MessageFrame(CredentialsJson(HeartbeatWord, key));
    CredentialsFrameContainsName(HeartbeatWord, key);
    HeartbeatFrameContainsWord();
    MessageFrameNotControl(CredentialsJson(HeartbeatWord, key));
    var items := [m, HeartbeatFrame, HeartbeatFrame, TimeoutItem];
    AsWrittenStep(items, 0);
    AsWrittenStep(items, 1);
    AsWrittenStep(items, 2);
    assert items[3..] == [TimeoutItem];
  }

  // ---------------------------------------------------------------------------
  // get_device_status_by_code: releasing the subscription

  /** The stream's pubsub connection: whether it still holds its
      subscription to the code's channel, and the `pubsub_cleaned_up` flag. */
  datatype CodeSession = CodeSession(code: string, subscribed: bool, cleanedUp: bool)

  /** UNSUBSCRIBE on the session's connection. Redis counts a connection once
      per channel, so only a connection that still holds the subscription
      releases one; a second UNSUBSCRIBE is ignored. */
  function Release(r: Redis, s: CodeSession): (res: (Redis, CodeSession))
    ensures res.1 == s.(subscribed := false)
    ensures s.subscribed ==> res.0 == Unsubscribe(r, CodeChannel(s.code))
    ensures !s.subscribed ==> res.0 == r
  {
    if s.subscribed then (Unsubscribe(r, CodeChannel(s.code)), s.(subscribed := false)) else (r, s)
  }

  /** Releasing twice is releasing once. */
  lemma ReleaseIdempotent(r: Redis, s: CodeSession)
    ensures var (r1, s1) := Release(r, s); Release(r1, s1) == (r1, s1)
  {
  }

  /** The generator's `finally`. Cancelling the tasks only schedules their
      cancellation, so the flag is read before the listener's handler can
      run: unless the flag is set, the subscription is released here. */
  function Finish(r: Redis, s: CodeSession): (res: (Redis, CodeSession))
    ensures s.cleanedUp ==> res == (r, s)
    ensures !s.cleanedUp ==> res == Release(r, s)
  {
    if s.cleanedUp then (r, s) else Release(r, s)
  }

  /** The listener's cancellation handler, which runs after the `finally`
      has started: it releases again and sets the flag. Only a listener still
      waiting for its message gets there; one that delivered has ended. */
  function ListenerCancelled(r: Redis, s: CodeSession, waiting: bool): (res: (Redis, CodeSession))
    ensures !waiting ==> res == (r, s)
    ensures waiting ==> res.0 == Release(r, s).0 && res.1 == s.(subscribed := false, cleanedUp := true)
  {
    if waiting then
      var (r1, s1) := Release(r, s);
      (r1, s1.(cleanedUp := true))
    else (r, s)
  }

  /** A session opened by OpenCodeStream releases its subscription exactly
      once, in the `finally`, whether or not the listener is still waiting:
      the listener's own release comes later and changes nothing. Afterwards
      every subscriber count is as before the stream, so the code can be
      waited on anew, and nothing else changes. */
  lemma CodeSessionReleasesOnce(st: State, code: string, waiting: bool)
    requires OpenCodeStream(st, code).Ok?
    ensures var open := OpenCodeStream(st, code).value;
            var (r1, s1) := Finish(open.redis, CodeSession(code, true, false));
            var (r2, s2) := ListenerCancelled(r1, s1, waiting);
            && r1 == Unsubscribe(open.redis, CodeChannel(code))
            && r2 == r1 && !s2.subscribed
            && (forall c :: Subscribers(r2, c) == Subscribers(st.redis, c))
            && r2.log == st.redis.log && r2.online == st.redis.online
            && OpenCodeStream(st.(redis := r2), code).Ok?
  {
  }
}
