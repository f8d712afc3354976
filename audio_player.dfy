/** The article audio player: the playback speed taken from the browser's
    storage or from the CMS default, the speed menu and its labels, the
    volume slider with mute, the time display, and the audio file's URL. */
module AudioPlayer {
  import opened Wrappers
  import opened JsNumber
  import opened Text

  /** The CMS's speed codes and the rates they stand for. */
  const RateCodes: map<string, real> := map[
    "x05" := 0.5, "x075" := 0.75, "x10" := 1.0, "x125" := 1.25, "x15" := 1.5]

  /** The speeds offered in the menu, in order. */
  const MenuRates: seq<real> := [0.5, 0.75, 1.0, 1.25, 1.5]

  /** `convertPlaybackRate`: a known code gives its rate, anything else normal speed. */
  function ConvertPlaybackRate(code: string): (r: real)
    ensures r in MenuRates
    ensures code in RateCodes ==> r == RateCodes[code]
    ensures code !in RateCodes ==> r == 1.0
  {
    if code in RateCodes && RateCodes[code] != 0.0 then RateCodes[code] else 1.0
  }

  /** The code of a menu rate. */
  function CodeOf(rate: real): (c: string)
    requires rate in MenuRates
    ensures c in RateCodes && RateCodes[c] == rate
  {
    if rate == 0.5 then "x05"
    else if rate == 0.75 then "x075"
    else if rate == 1.0 then "x10"
    else if rate == 1.25 then "x125"
    else "x15"
  }

  /** Every menu rate has a code that converts back to it, and every code to a menu rate. */
  lemma CodesCoverMenu(rate: real, code: string)
    requires rate in MenuRates
    ensures ConvertPlaybackRate(CodeOf(rate)) == rate
    ensures code in RateCodes ==> CodeOf(ConvertPlaybackRate(code)) == code
  {
  }

  /** `parseFloat` on decimal text: leading white space, an optional sign,
      digits with an optional fraction; the rest of the text is ignored.
      `None` stands for `NaN`. */
  function ParseFloat(s: string): (r: Option<real>)
  {
    var t := TrimStart(s);
    if t != [] && (t[0] == '-' || t[0] == '+') then
      match ParseUnsigned(t[1..])
      case None => None
      case Some(m) => Some(if t[0] == '-' then -m else m)
    else ParseUnsigned(t)
  }

  function ParseUnsigned(u: string): (r: Option<real>)
    ensures r.Some? ==> r.value >= 0.0
  {
    var k := PrefixLength(u, IsDigit);
    var whole := DecimalValue(u[..k]);
    if k < |u| && u[k] == '.' then
      var rest := u[k + 1..];
      var j := PrefixLength(rest, IsDigit);
      if k == 0 && j == 0 then None
      else Some(whole as real + DecimalValue(rest[..j]) as real / Power10(j) as real)
    else if k == 0 then None
    else Some(whole as real)
  }

  function Power10(n: nat): (p: nat)
    ensures p >= 1
  {
    if n == 0 then 1 else 10 * Power10(n - 1)
  }

  /** `j` digits after the point read as a fraction below one: their value
      is below 10 to the `j`. */
  lemma {:induction false} FractionBelowOne(ds: string)
    requires forall i :: 0 <= i < |ds| ==> IsDigit(ds[i])
    ensures DecimalValue(ds) < Power10(|ds|)
  {
    if ds != [] {
      FractionBelowOne(ds[..|ds| - 1]);
    }
  }

  /** `rate.toString()` for the menu rates. */
  function RateText(rate: real): (s: string)
    requires rate in MenuRates
    ensures s != []
  {
    if rate == 0.5 then "0.5"
    else if rate == 0.75 then "0.75"
    else if rate == 1.0 then "1"
    else if rate == 1.25 then "1.25"
    else "1.5"
  }

  /** The stored text of each menu rate reads back as that rate. */
  lemma RateTextParses(rate: real)
    requires rate in MenuRates
    ensures ParseFloat(RateText(rate)) == Some(rate)
  {
    var s := RateText(rate);
    if rate == 0.5 {
      ParsesHalf(s);
    } else if rate == 0.75 {
      ParsesThreeQuarters(s);
    } else if rate == 1.0 {
      ParsesOne(s);
    } else if rate == 1.25 {
      ParsesFiveQuarters(s);
    } else {
      ParsesOneAndHalf(s);
    }
  }

  lemma ParsesHalf(s: string)
    requires s == "0.5"
    ensures ParseFloat(s) == Some(0.5)
  {
    FloatOfUnsigned(s);
    FractionDigits(s, 0, 5);
  }

  lemma ParsesThreeQuarters(s: string)
    requires s == "0.75"
    ensures ParseFloat(s) == Some(0.75)
  {
    FloatOfUnsigned(s);
    FractionDigitPair(s, 0, 75);
  }

  lemma ParsesOne(s: string)
    requires s == "1"
    ensures ParseFloat(s) == Some(1.0)
  {
    FloatOfUnsigned(s);
    WholeDigit(s, 1);
  }

  lemma ParsesFiveQuarters(s: string)
    requires s == "1.25"
    ensures ParseFloat(s) == Some(1.25)
  {
    FloatOfUnsigned(s);
    FractionDigitPair(s, 1, 25);
  }

  lemma ParsesOneAndHalf(s: string)
    requires s == "1.5"
    ensures ParseFloat(s) == Some(1.5)
  {
    FloatOfUnsigned(s);
    FractionDigits(s, 1, 5);
  }

  /** Text without a single decimal digit parses to `NaN`. */
  lemma NoDigitIsNaN(s: string)
    requires forall i :: 0 <= i < |s| ==> !IsDigit(s[i])
    ensures ParseFloat(s) == None
  {
    var t := TrimStart(s);
    assert t == s[|s| - |t|..];
    if t != [] && (t[0] == '-' || t[0] == '+') {
      UnsignedNeedsDigit(t[1..]);
    } else {
      UnsignedNeedsDigit(t);
    }
  }

  lemma UnsignedNeedsDigit(u: string)
    requires forall i :: 0 <= i < |u| ==> !IsDigit(u[i])
    ensures ParseUnsigned(u) == None
  {
    assert PrefixLength(u, IsDigit) == 0;
    if |u| > 0 && u[0] == '.' {
      assert PrefixLength(u[1..], IsDigit) == 0;
    }
  }

  /** Text starting with a digit parses as it would without a sign. */
  lemma FloatOfUnsigned(s: string)
    requires s != [] && IsDigit(s[0])
    ensures ParseFloat(s) == ParseUnsigned(s)
  {
    assert TrimStart(s) == s by { assert !IsSpace(s[0]); }
  }

  /** A single digit reads as its value. */
  lemma WholeDigit(s: string, d: nat)
    requires |s| == 1 && d < 10 && s[0] == '0' + d as char
    ensures ParseUnsigned(s) == Some(d as real)
  {
    assert PrefixLength(s, IsDigit) == 1 by { assert s[1..] == []; }
    assert DecimalValue(s) == d by { assert s[..0] == []; }
    UnsignedWhole(s, d);
  }

  /** Text made of digits reads as their decimal value. */
  lemma UnsignedWhole(u: string, whole: nat)
    requires u != [] && PrefixLength(u, IsDigit) == |u|
    requires DecimalValue(u) == whole
    ensures ParseUnsigned(u) == Some(whole as real)
  {
    assert u[..|u|] == u;
  }

  /** Digits, a point and digits read as the whole part plus the fraction. */
  lemma UnsignedFraction(u: string, k: nat, j: nat, whole: nat, frac: nat)
    requires 0 < k < |u| && u[k] == '.'
    requires PrefixLength(u, IsDigit) == k && PrefixLength(u[k + 1..], IsDigit) == j
    requires DecimalValue(u[..k]) == whole && DecimalValue(u[k + 1..][..j]) == frac
    ensures ParseUnsigned(u) == Some(whole as real + frac as real / Power10(j) as real)
  {
  }

  /** "d.f" with single digits reads as d + f/10. */
  lemma FractionDigits(s: string, d: nat, f: nat)
    requires |s| == 3 && s[1] == '.' && d < 10 && f < 10
    requires s[0] == '0' + d as char && s[2] == '0' + f as char
    ensures ParseUnsigned(s) == Some(d as real + f as real / 10.0)
  {
    var t := s[2..];
    assert PrefixLength(s, IsDigit) == 1 by { assert !IsDigit(s[1]); }
    assert PrefixLength(t, IsDigit) == 1 by { assert t[1..] == []; }
    assert DecimalValue(s[..1]) == d by { assert s[..1][..0] == []; }
    assert DecimalValue(t[..1]) == f by { assert t[..1][..0] == []; }
    assert Power10(1) == 10;
    UnsignedFraction(s, 1, 1, d, f);
  }

  /** "d.ef" with single digits reads as d + ef/100. */
  lemma FractionDigitPair(s: string, d: nat, f: nat)
    requires |s| == 4 && s[1] == '.' && d < 10 && 10 <= f < 100
    requires s[0] == '0' + d as char && s[2] == '0' + (f / 10) as char && s[3] == '0' + (f % 10) as char
    ensures ParseUnsigned(s) == Some(d as real + f as real / 100.0)
  {
    var t := s[2..];
    assert PrefixLength(s, IsDigit) == 1 by { assert !IsDigit(s[1]); }
    assert PrefixLength(t, IsDigit) == 2 by { assert t[1..][1..] == []; }
    assert DecimalValue(s[..1]) == d by { assert s[..1][..0] == []; }
    assert DecimalValue(t[..2]) == f by { assert t[..2][..1] == t[..1] && t[..1][..0] == []; }
    assert Power10(2) == 100;
    UnsignedFraction(s, 1, 2, d, f);
  }

  /** A stored rate is used only in [0.5, 1.5]; `NaN` never is. */
  predicate Acceptable(rate: Option<real>) {
    rate.Some? && 0.5 <= rate.value <= 1.5
  }

  /** The rate after the loading effect: a non-empty stored text decides
      alone (an unreadable or out-of-range one keeps the current rate); only
      without one is a non-empty CMS default converted. */
  function LoadRate(saved: Option<string>, default: Option<string>, current: real): (r: real)
    ensures saved.Some? && saved.value != [] ==>
      r == if Acceptable(ParseFloat(saved.value)) then ParseFloat(saved.value).value else current
    ensures (saved.None? || saved.value == []) && default.Some? && default.value != [] ==>
      r == ConvertPlaybackRate(default.value)
    ensures (saved.None? || saved.value == []) && (default.None? || default.value == []) ==> r == current
    ensures 0.5 <= current <= 1.5 ==> 0.5 <= r <= 1.5
  {
    if saved.Some? && saved.value != [] then
      var rate := ParseFloat(saved.value);
      if Acceptable(rate) then rate.value else current
    else if default.Some? && default.value != [] then ConvertPlaybackRate(default.value)
    else current
  }

  /** A speed chosen in the menu is the speed of the next visit, whatever the CMS default. */
  lemma ChosenSpeedPersists(rate: real, default: Option<string>, current: real)
    requires rate in MenuRates
    ensures LoadRate(Some(RateText(rate)), default, current) == rate
  {
    var text := RateText(rate);
    RateTextParses(rate);
    assert Acceptable(ParseFloat(text));
  }

  /** What the speed button shows. */
  datatype SpeedLabel = Normal | Times(rate: real)

  /** `getSpeedLabel`: "Normalny" at normal speed, otherwise the rate with an "x". */
  function GetSpeedLabel(rate: real): (l: SpeedLabel)
    ensures l == Normal <==> rate == 1.0
    ensures l.Times? ==> l.rate == rate
  {
    if rate == 1.0 then Normal else Times(rate)
  }

  /** The label's text for a menu rate. */
  function LabelText(rate: real): (s: string)
    requires rate in MenuRates
    ensures rate == 1.0 ==> s == "Normalny"
    ensures rate != 1.0 ==> s == RateText(rate) + "x"
  {
    match GetSpeedLabel(rate)
    case Normal => "Normalny"
    case Times(r) => RateText(r) + "x"
  }

  /** `formatTime`: "0:00" for `NaN` (`None`), otherwise whole minutes, a
      colon, and the whole seconds of the minute padded to two digits. */
  function FormatTime(time: Option<real>): (r: string)
    ensures time.None? ==> r == "0:00"
    ensures time.Some? && time.value >= 0.0 ==>
      |r| >= 4 && r[|r| - 3] == ':' && IsDigit(r[|r| - 2]) && IsDigit(r[|r| - 1])
  {
    if time.None? then "0:00"
    else
      var t := time.value;
      var sec := JsMod(t, 60.0).Floor;
      var seconds := Pad2(IntToString(sec));
      SecondsField(sec);
      IntToString((t / 60.0).Floor) + ":" + seconds
  }

  /** Whole seconds of a minute fill exactly two digit places. */
  lemma SecondsField(sec: int)
    ensures 0 <= sec < 60 ==>
      var r := Pad2(IntToString(sec)); |r| == 2 && IsDigit(r[0]) && IsDigit(r[1])
  {
    if 0 <= sec < 60 {
      assert |NatToString(sec / 10)| == 1;
    }
  }

  /** For a time of at least zero the display is m:ss with ss below 60 and
      m·60 + ss the whole seconds. */
  lemma FormatTimeParts(t: real)
    requires t >= 0.0
    ensures var m, s := (t / 60.0).Floor, JsMod(t, 60.0).Floor;
      && 0 <= s < 60 && m >= 0 && m * 60 + s == t.Floor
      && FormatTime(Some(t)) == NatToString(m) + ":" + Pad2(NatToString(s))
      && |Pad2(NatToString(s))| == 2
  {
    var m, s := (t / 60.0).Floor, JsMod(t, 60.0).Floor;
    assert m == t.Floor / 60;
    assert s == t.Floor % 60;
  }

  /** The URL the player loads: absolute ("http…") URLs as they are, others
      appended to the CMS base (`NEXT_PUBLIC_STRAPI_URL`, or the local default). */
  function FullAudioUrl(audioUrl: string, env: Option<string>): (u: string)
    ensures StartsWith(audioUrl, "http") ==> u == audioUrl
    ensures !StartsWith(audioUrl, "http") ==> u == StrapiBase(env) + audioUrl
  {
    if StartsWith(audioUrl, "http") then audioUrl else StrapiBase(env) + audioUrl
  }

  function StrapiBase(env: Option<string>): (b: string)
    ensures env.Some? && env.value != [] ==> b == env.value
    ensures env.None? || env.value == [] ==> b == "http://localhost:1337"
  {
    if env.Some? && env.value != [] then env.value else "http://localhost:1337"
  }

  /** A full URL is absolute whenever the base is, and prefixing is done at most once. */
  lemma FullAudioUrlIdempotent(audioUrl: string, env: Option<string>)
    requires StartsWith(StrapiBase(env), "http")
    ensures StartsWith(FullAudioUrl(audioUrl, env), "http")
    ensures FullAudioUrl(FullAudioUrl(audioUrl, env), env) == FullAudioUrl(audioUrl, env)
  {
    var b := StrapiBase(env);
    if !StartsWith(audioUrl, "http") {
      assert (b + audioUrl)[..4] == b[..4];
    }
  }

  /** The volume the audio element plays at, given the component's state. */
  function ElementVolume(isMuted: bool, volume: real): (v: real)
    ensures isMuted ==> v == 0.0
    ensures !isMuted ==> v != 0.0
    ensures !isMuted && volume != 0.0 ==> v == volume
  {
    if isMuted then 0.0 else if volume == 0.0 then 0.5 else volume
  }

  class Player {
    /** Whether the audio element is mounted. */
    const hasAudio: bool
    var isPlaying: bool
    var currentTime: real
    var volume: real
    var isMuted: bool
    var playbackRate: real
    var showSpeedMenu: bool
    /** The element's own volume, position and rate. */
    var audioVolume: real
    var audioTime: real
    var audioRate: real
    /** The browser's `audioPlaybackRate` entry. */
    var savedRate: Option<string>

    /** The element plays at the volume the controls describe, at the
        chosen speed, and the speed is one the player accepts. */
    predicate Valid()
      reads this
    {
      (hasAudio ==> audioVolume == ElementVolume(isMuted, volume) && audioRate == playbackRate)
      && 0.5 <= playbackRate <= 1.5
    }

    /** A fresh player after its loading effect. */
    constructor(hasAudio: bool, saved: Option<string>, default: Option<string>)
      ensures Valid()
      ensures this.hasAudio == hasAudio && savedRate == saved
      ensures !isPlaying && currentTime == 0.0 && volume == 1.0 && !isMuted && !showSpeedMenu
      ensures playbackRate == LoadRate(saved, default, 1.0)
    {
      this.hasAudio := hasAudio;
      isPlaying, currentTime := false, 0.0;
      volume, isMuted := 1.0, false;
      playbackRate := LoadRate(saved, default, 1.0);
      showSpeedMenu := false;
      audioVolume, audioTime := 1.0, 0.0;
      audioRate := LoadRate(saved, default, 1.0);
      savedRate := saved;
    }

    /** `togglePlayPause`: nothing without an element. */
    method TogglePlayPause()
      requires Valid()
      modifies this
      ensures Valid()
      ensures isPlaying == (if hasAudio then !old(isPlaying) else old(isPlaying))
      ensures volume == old(volume) && isMuted == old(isMuted) && audioVolume == old(audioVolume)
      ensures playbackRate == old(playbackRate) && currentTime == old(currentTime) && savedRate == old(savedRate)
    {
      if hasAudio {
        isPlaying := !isPlaying;
      }
    }

    /** `handleSeek`: the element and the display jump to the slider's time. */
    method Seek(newTime: real)
      requires Valid()
      modifies this
      ensures Valid()
      ensures hasAudio ==> currentTime == newTime && audioTime == newTime
      ensures !hasAudio ==> currentTime == old(currentTime) && audioTime == old(audioTime)
      ensures volume == old(volume) && isMuted == old(isMuted) && isPlaying == old(isPlaying)
      ensures playbackRate == old(playbackRate) && savedRate == old(savedRate)
    {
      if hasAudio {
        audioTime := newTime;
        currentTime := newTime;
      }
    }

    /** `handleVolumeChange`: the slider's value becomes the volume, muted exactly at zero. */
    method VolumeChange(newVolume: real)
      requires Valid()
      modifies this
      ensures Valid()
      ensures hasAudio ==> volume == newVolume && (isMuted <==> newVolume == 0.0) && audioVolume == newVolume
      ensures !hasAudio ==> volume == old(volume) && isMuted == old(isMuted)
      ensures playbackRate == old(playbackRate) && isPlaying == old(isPlaying) && savedRate == old(savedRate)
    {
      if hasAudio {
        audioVolume := newVolume;
        volume := newVolume;
        isMuted := newVolume == 0.0;
      }
    }

    /** `toggleMute`: muting silences the element; unmuting restores the
        volume, or half volume when the volume is zero. */
    method ToggleMute()
      requires Valid()
      modifies this
      ensures Valid()
      ensures hasAudio ==> isMuted == !old(isMuted)
      ensures hasAudio && old(isMuted) ==> audioVolume == (if volume == 0.0 then 0.5 else volume)
      ensures hasAudio && !old(isMuted) ==> audioVolume == 0.0
      ensures !hasAudio ==> isMuted == old(isMuted)
      ensures volume == old(volume) && playbackRate == old(playbackRate) && savedRate == old(savedRate)
    {
      if hasAudio {
        if isMuted {
          audioVolume := if volume != 0.0 then volume else 0.5;
          isMuted := false;
        } else {
          audioVolume := 0.0;
          isMuted := true;
        }
      }
    }

    /** `handleSpeedChange` for a menu rate: the rate is applied, stored as
        text, and the menu closes. */
    method SpeedChange(rate: real)
      requires Valid() && rate in MenuRates
      modifies this
      ensures Valid()
      ensures playbackRate == rate && savedRate == Some(RateText(rate)) && !showSpeedMenu
      ensures LoadRate(savedRate, None, 1.0) == rate
      ensures volume == old(volume) && isMuted == old(isMuted) && isPlaying == old(isPlaying)
    {
      playbackRate := rate;
      if hasAudio {
        audioRate := rate;
      }
      savedRate := Some(RateText(rate));
      showSpeedMenu := false;
      ChosenSpeedPersists(rate, None, 1.0);
    }

    /** The speed button opens and closes the menu. */
    method ToggleSpeedMenu()
      requires Valid()
      modifies this
      ensures Valid()
      ensures showSpeedMenu == !old(showSpeedMenu)
      ensures playbackRate == old(playbackRate) && savedRate == old(savedRate) && volume == old(volume)
    {
      showSpeedMenu := !showSpeedMenu;
    }

    /** The volume slider shows zero while muted. */
    function SliderValue(): (v: real)
      reads this
      ensures isMuted ==> v == 0.0
      ensures !isMuted ==> v == volume
    {
      if isMuted then 0.0 else volume
    }
  }
}
