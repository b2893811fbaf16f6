/** The request and response models of the API (models/setup.py and
    models/device.py): field bounds, the HH:MM time validator, the decimal
    rendering of an activation code and the device summary shown in a setup.
    The handlers take requests that passed these checks; a request that fails
    them is answered 422 by the framework before any handler runs. */
module Schemas {
  import opened Outcomes

  const MinutesPerDay: nat := 1440
  const DaysPerWeek: nat := 7
  const DayNames: seq<string> := ["monday", "tuesday", "wednesday", "thursday", "friday", "saturday", "sunday"]

  /** Setup and playlist names: 1..256 characters. */
  const NameMax: nat := 256
  /** Device name and location: 1..255 characters. */
  const DeviceFieldMax: nat := 255
  /** Bounds of an activation code (DeviceInput.code and DeviceCodeOutput.code). */
  const CodeMin: int := 100_000_000
  const CodeMax: int := 999_999_999

  /** The 422 messages of a time field: pydantic's min_length and max_length
      errors, and the validator's ValueError with pydantic's "Value error, "
      prefix. */
  const TimeShortMessage := "String should have at least 5 characters"
  const TimeLongMessage := "String should have at most 5 characters"
  const TimeFormatMessage := "Value error, Time must be in 'HH:MM' format"
  const EmptyPlaylistsMessage := "playlists must not be empty"

  // ---------------------------------------------------------------------------
  // Times of day

  predicate IsDigit(c: char)
  {
    '0' <= c <= '9'
  }

  function DigitValue(c: char): (d: nat)
    requires IsDigit(c)
    ensures d < 10
  {
    c as int - '0' as int
  }

  function DigitChar(d: nat): (c: char)
    requires d < 10
    ensures IsDigit(c) && DigitValue(c) == d
  {
    ('0' as int + d) as char
  }

  /** The five-character strings that time.fromisoformat accepts: a two-digit
      hour below 24, a colon, a two-digit minute below 60. */
  predicate IsClock(s: string)
  {
    && |s| == 5
    && IsDigit(s[0]) && IsDigit(s[1]) && s[2] == ':' && IsDigit(s[3]) && IsDigit(s[4])
    && DigitValue(s[0]) * 10 + DigitValue(s[1]) < 24
    && DigitValue(s[3]) * 10 + DigitValue(s[4]) < 60
  }

  /** The minute of the day an HH:MM string denotes; comparing two times as
      strptime("%H:%M") values is comparing these numbers. */
  function Minutes(s: string): (m: nat)
    requires IsClock(s)
    ensures m < MinutesPerDay
  {
    (DigitValue(s[0]) * 10 + DigitValue(s[1])) * 60 + DigitValue(s[3]) * 10 + DigitValue(s[4])
  }

  /** The HH:MM rendering of a minute of the day. */
  function Clock(m: nat): (s: string)
    requires m < MinutesPerDay
    ensures IsClock(s) && Minutes(s) == m
  {
    var h := m / 60;
    var mm := m % 60;
    [DigitChar(h / 10), DigitChar(h % 10), ':', DigitChar(mm / 10), DigitChar(mm % 10)]
  }

  /** Reading a valid time and rendering it again gives back the same string,
      so HH:MM strings and minutes of the day correspond one to one. */
  lemma ClockOfMinutes(s: string)
    requires IsClock(s)
    ensures Clock(Minutes(s)) == s
  {
    var m := Minutes(s);
    var h := DigitValue(s[0]) * 10 + DigitValue(s[1]);
    var mm := DigitValue(s[3]) * 10 + DigitValue(s[4]);
    assert m / 60 == h && m % 60 == mm;
    var c := Clock(m);
    assert c[0] == s[0] && c[1] == s[1] && c[3] == s[3] && c[4] == s[4];
  }

  /** The checks of a start_time or end_time field: the min_length and
      max_length constraints of 5, then PlaylistBase.validate_time /
      PlaylistUpdate.validate_time. A value is accepted exactly when it is
      the HH:MM rendering of some minute of the day. */
  function ValidateTime(field: string, value: string): (c: Check)
    ensures c.Pass? <==> exists m: nat :: m < MinutesPerDay && value == Clock(m)
    ensures |value| < 5 ==> c == Fail(Invalid(field, TimeShortMessage))
    ensures |value| > 5 ==> c == Fail(Invalid(field, TimeLongMessage))
    ensures c.Fail? && |value| == 5 ==> c.reason == Invalid(field, TimeFormatMessage)
  {
    if |value| < 5 then Fail(Invalid(field, TimeShortMessage))
    else if |value| > 5 then Fail(Invalid(field, TimeLongMessage))
    else if IsClock(value) then
      ClockOfMinutes(value);
      Pass
    else Fail(Invalid(field, TimeFormatMessage))
  }

  // ---------------------------------------------------------------------------
  // Request models

  datatype ImageInput = ImageInput(url: string, duration: int)

  datatype PlaylistInput = PlaylistInput(
    name: string,
    startTime: string,
    endTime: string,
    days: seq<bool>,        // monday .. sunday
    images: seq<ImageInput>,
    videos: seq<string>)

  datatype SetupInput = SetupInput(name: string, playlists: seq<PlaylistInput>, devices: seq<int>)

  datatype PlaylistUpdate = PlaylistUpdate(
    id: int,
    name: string,
    startTime: string,
    endTime: string,
    days: seq<bool>,
    imagesToAdd: seq<ImageInput>,
    imagesToDelete: seq<int>,
    videosToAdd: seq<string>,
    videosToDelete: seq<int>)

  datatype SetupUpdate = SetupUpdate(
    name: Option<string>,
    playlistsToAdd: seq<PlaylistInput>,
    playlistsToUpdate: seq<PlaylistUpdate>,
    playlistsToDelete: seq<int>,
    devicesToAdd: seq<int>,
    devicesToRemove: seq<int>)

  /** A field of a partial update: left out of the request, or given
      (possibly as an explicit null). */
  datatype Field<T> = Unset | Given(value: T)

  datatype DeviceInput = DeviceInput(name: string, location: string, setupId: Option<int>, code: int)

  datatype DeviceUpdate = DeviceUpdate(
    name: Field<Option<string>>,
    location: Field<Option<string>>,
    setupId: Field<Option<int>>)

  datatype SnapshotInput = SnapshotInput(url: string)

  datatype DeviceSetupOutput = DeviceSetupOutput(id: int, data: string)

  // ---------------------------------------------------------------------------
  // Field constraints

  predicate NameOk(s: string)
  {
    1 <= |s| <= NameMax
  }

  predicate DeviceTextOk(s: string)
  {
    1 <= |s| <= DeviceFieldMax
  }

  predicate ImageOk(i: ImageInput)
  {
    |i.url| >= 1 && i.duration >= 1
  }

  predicate VideoOk(url: string)
  {
    |url| >= 1
  }

  predicate ScheduleOk(startTime: string, endTime: string, days: seq<bool>)
  {
    IsClock(startTime) && IsClock(endTime) && |days| == DaysPerWeek
  }

  predicate PlaylistInputOk(p: PlaylistInput)
  {
    && NameOk(p.name)
    && ScheduleOk(p.startTime, p.endTime, p.days)
    && (forall i | i in p.images :: ImageOk(i))
    && (forall v | v in p.videos :: VideoOk(v))
  }

  /** SetupInput: a 1..256 character name and a non-empty list of playlists
      (validate_non_empty). */
  predicate SetupInputOk(s: SetupInput)
  {
    && NameOk(s.name)
    && |s.playlists| > 0
    && (forall p | p in s.playlists :: PlaylistInputOk(p))
  }

  /** PlaylistUpdate: its name has no length bound; its times are checked. */
  predicate PlaylistUpdateOk(u: PlaylistUpdate)
  {
    && ScheduleOk(u.startTime, u.endTime, u.days)
    && (forall i | i in u.imagesToAdd :: ImageOk(i))
    && (forall v | v in u.videosToAdd :: VideoOk(v))
  }

  predicate SetupUpdateOk(u: SetupUpdate)
  {
    && (u.name.Some? ==> NameOk(u.name.value))
    && (forall p | p in u.playlistsToAdd :: PlaylistInputOk(p))
    && (forall p | p in u.playlistsToUpdate :: PlaylistUpdateOk(p))
  }

  predicate CodeOk(code: int)
  {
    CodeMin <= code <= CodeMax
  }

  predicate DeviceInputOk(d: DeviceInput)
  {
    DeviceTextOk(d.name) && DeviceTextOk(d.location) && CodeOk(d.code)
  }

  /** DeviceUpdate: a given non-null name or location is 1..255 characters;
      a given non-null setup id is at least 1. */
  predicate DeviceUpdateOk(u: DeviceUpdate)
  {
    && (u.name.Given? && u.name.value.Some? ==> DeviceTextOk(u.name.value.value))
    && (u.location.Given? && u.location.value.Some? ==> DeviceTextOk(u.location.value.value))
    && (u.setupId.Given? && u.setupId.value.Some? ==> u.setupId.value.value >= 1)
  }

  predicate SnapshotInputOk(s: SnapshotInput)
  {
    |s.url| >= 1
  }

  // ---------------------------------------------------------------------------
  // Decimal rendering of activation codes (Redis channel names are strings)

  predicate AllDigits(s: string)
  {
    forall i :: 0 <= i < |s| ==> IsDigit(s[i])
  }

  function Decimal(n: nat): (s: string)
    ensures |s| >= 1 && AllDigits(s)
    decreases n
  {
    if n < 10 then [DigitChar(n)] else Decimal(n / 10) + [DigitChar(n % 10)]
  }

  function DecimalValue(s: string): nat
    requires AllDigits(s)
    decreases |s|
  {
    if s == [] then 0 else DecimalValue(s[..|s| - 1]) * 10 + DigitValue(s[|s| - 1])
  }

  /** Reading back the decimal rendering of a number gives the number, so two
      different codes never name the same channel. */
  lemma {:induction false} DecimalRoundTrip(n: nat)
    ensures DecimalValue(Decimal(n)) == n
    decreases n
  {
    if n >= 10 {
      var s := Decimal(n);
      assert s[..|s| - 1] == Decimal(n / 10);
      DecimalRoundTrip(n / 10);
    }
  }

  lemma DecimalInjective(a: nat, b: nat)
    ensures Decimal(a) == Decimal(b) ==> a == b
  {
    DecimalRoundTrip(a);
    DecimalRoundTrip(b);
  }

  function Pow10(k: nat): (p: nat)
    ensures p >= 1
  {
    if k == 0 then 1 else 10 * Pow10(k - 1)
  }

  /** A number in [10^(k-1), 10^k) is written with exactly k digits. */
  lemma {:induction false} DecimalLength(n: nat, k: nat)
    requires k >= 1 && Pow10(k - 1) <= n < Pow10(k)
    ensures |Decimal(n)| == k
    decreases k
  {
    if k > 1 {
      assert Pow10(k - 2) <= n / 10 < Pow10(k - 1);
      DecimalLength(n / 10, k - 1);
    }
  }

  /** Every code within the DeviceInput bounds is written with nine digits. */
  lemma CodeHasNineDigits(code: int)
    requires CodeOk(code)
    ensures |Decimal(code)| == 9
  {
    assert Pow10(8) == 100_000_000 by {
      assert Pow10(4) == 10_000;
    }
    assert Pow10(9) == 1_000_000_000;
    DecimalLength(code, 9);
  }

  // ---------------------------------------------------------------------------
  // DevicePublicOutput.to_setup_model

  /** The summary of a device inside a setup: its id, and "name - location". */
  function ToSetupModel(id: int, name: string, location: string): (o: DeviceSetupOutput)
    ensures o.id == id
    ensures |o.data| == |name| + 3 + |location|
    ensures o.data[..|name|] == name
    ensures o.data[|name|..|name| + 3] == " - "
    ensures o.data[|name| + 3..] == location
  {
    DeviceSetupOutput(id, name + " - " + location)
  }
}
