/**
 * `/youtube download`: the transcode profiles and their stdio plans, the
 * output path built from the sanitised title, the 1080p video filter and the
 * processing reminder. The ffmpeg process, the video platform and Discord
 * are outside the model: spawning is recorded as a job description,
 * `getInfo` is given as its answer, timer ticks are explicit calls.
 */
module YoutubeDownload {
  import opened Wrappers
  import opened JsText
  import opened FfmpegPlan

  type UserId = string

  /** An entry of `ffmpegConfigs`. */
  datatype Profile = Profile(value: string, ffmpegArgs: seq<string>, stdioArgs: seq<Stdio>, format: string)

  const Highest: string := "highest"
  const HighestAudio: string := "highestaudio"
  const HighestVideo: string := "highestvideo"

  /** `ffmpegConfigs` as the module defines it, before any request has run. */
  const InitialProfiles: seq<Profile> := [
    Profile(Highest,
      ["-loglevel", "0", "-progress", "pipe:1", "-i", "pipe:3", "-i", "pipe:4",
       "-map", "0:a", "-map", "1:v", "-c:a", "aac", "-c:v", "libx264", "-f", "mp4", "-y"],
      [Unset, Pipe, Unset, Pipe, Pipe], "mp4"),
    Profile(HighestAudio,
      ["-loglevel", "0", "-progress", "pipe:1", "-i", "pipe:0", "-map", "0:a:0",
       "-c:a", "aac", "-f", "mp4", "-y"],
      [Pipe, Pipe, Inherit], "mp4"),
    Profile(HighestVideo,
      ["-loglevel", "0", "-progress", "pipe:1", "-i", "pipe:0", "-map", "0:v",
       "-c:v", "libx264", "-movflags", "use_metadata_tags+faststart+frag_keyframe+empty_moov",
       "-f", "mp4", "-y"],
      [Pipe, Pipe, Inherit], "mp4")
  ]

  /** The choices the `downloadtype` option offers. */
  const DownloadTypeChoices: seq<string> := [Highest, HighestAudio, HighestVideo]

  // ---------------------------------------------------------------------
  // Profiles and their stdio plans
  // ---------------------------------------------------------------------

  /** 'highest' names descriptors 1 (progress), 3 and 4 (the two inputs). */
  lemma HighestPipes()
    ensures PipesNamed(InitialProfiles[0].ffmpegArgs) == {1, 3, 4}
  {
    var a := InitialProfiles[0].ffmpegArgs;
    assert PipeIndex(a[3]) == Some(1) && PipeIndex(a[5]) == Some(3) && PipeIndex(a[7]) == Some(4);
    forall k | 0 <= k < |a| && k !in {3, 5, 7} ensures PipeIndex(a[k]).None? {
      assert |a[k]| != 6;
    }
    assert (set k | k in {3, 5, 7} :: PipeIndex(a[k]).value) == {1, 3, 4};
    PipesNamedAt(a, {3, 5, 7}, {1, 3, 4});
  }

  /** 'highestaudio' names descriptors 1 (progress) and 0 (the input). */
  lemma AudioPipes()
    ensures PipesNamed(InitialProfiles[1].ffmpegArgs) == {0, 1}
  {
    var a := InitialProfiles[1].ffmpegArgs;
    assert PipeIndex(a[3]) == Some(1) && PipeIndex(a[5]) == Some(0);
    forall k | 0 <= k < |a| && k !in {3, 5} ensures PipeIndex(a[k]).None? {
      assert |a[k]| != 6;
    }
    assert (set k | k in {3, 5} :: PipeIndex(a[k]).value) == {0, 1};
    PipesNamedAt(a, {3, 5}, {0, 1});
  }

  /** 'highestvideo' names descriptors 1 (progress) and 0 (the input). */
  lemma VideoPipes()
    ensures PipesNamed(InitialProfiles[2].ffmpegArgs) == {0, 1}
  {
    var a := InitialProfiles[2].ffmpegArgs;
    assert PipeIndex(a[3]) == Some(1) && PipeIndex(a[5]) == Some(0);
    forall k | 0 <= k < |a| && k !in {3, 5} ensures PipeIndex(a[k]).None? {
      assert |a[k]| != 6;
    }
    assert (set k | k in {3, 5} :: PipeIndex(a[k]).value) == {0, 1};
    PipesNamedAt(a, {3, 5}, {0, 1});
  }

  /** Every `pipe:N` of every initial profile has "pipe" at index N of its stdio plan. */
  lemma InitialPipes()
    ensures forall i :: 0 <= i < |InitialProfiles| ==> PipesWired(InitialProfiles[i].ffmpegArgs, InitialProfiles[i].stdioArgs)
  {
    HighestPipes();
    AudioPipes();
    VideoPipes();
  }

  /** Appending an argument that names no descriptor keeps the plan wired. */
  lemma {:induction false} PushKeepsWired(p: Profile, arg: string)
    requires PipesWired(p.ffmpegArgs, p.stdioArgs) && PipeIndex(arg).None?
    ensures PipesWired(p.ffmpegArgs + [arg], p.stdioArgs)
  {
    var args := p.ffmpegArgs + [arg];
    assert PipesNamed(args) == PipesNamed(p.ffmpegArgs) by {
      forall n | n in PipesNamed(args) ensures n in PipesNamed(p.ffmpegArgs) {
        var k :| 0 <= k < |args| && PipeIndex(args[k]).Some? && PipeIndex(args[k]).value == n;
        assert k < |p.ffmpegArgs| && args[k] == p.ffmpegArgs[k];
      }
      forall n | n in PipesNamed(p.ffmpegArgs) ensures n in PipesNamed(args) {
        var k :| 0 <= k < |p.ffmpegArgs| && PipeIndex(p.ffmpegArgs[k]).Some? && PipeIndex(p.ffmpegArgs[k]).value == n;
        assert args[k] == p.ffmpegArgs[k];
      }
    }
  }

  /** `ffmpegConfigs.find(type => type.value == value)`, as an index into the table. */
  function FindProfile(profiles: seq<Profile>, value: string): (r: Option<nat>)
    ensures r.Some? ==> r.value < |profiles| && profiles[r.value].value == value
    ensures r.Some? ==> forall i :: 0 <= i < r.value ==> profiles[i].value != value
    ensures r.None? ==> forall i :: 0 <= i < |profiles| ==> profiles[i].value != value
  {
    if profiles == [] then None
    else if profiles[0].value == value then Some(0)
    else match FindProfile(profiles[1..], value)
      case None => None
      case Some(i) => Some(i + 1)
  }

  /** The value of each entry of the table, in order, as a download type names it. */
  predicate SameValues(profiles: seq<Profile>) {
    |profiles| == |InitialProfiles|
    && forall i :: 0 <= i < |profiles| ==> profiles[i].value == InitialProfiles[i].value
  }

  /** Each offered choice finds its own profile, and nothing else finds one. */
  lemma {:induction false} ChoicesFindProfiles(profiles: seq<Profile>, value: string)
    requires SameValues(profiles)
    ensures value in DownloadTypeChoices <==> FindProfile(profiles, value).Some?
    ensures value in DownloadTypeChoices ==>
      FindProfile(profiles, value) == Some(if value == Highest then 0 else if value == HighestAudio then 1 else 2)
  {
    var r := FindProfile(profiles, value);
    assert profiles[0].value == Highest && profiles[1].value == HighestAudio && profiles[2].value == HighestVideo;
    assert Highest != HighestAudio && Highest != HighestVideo && HighestAudio != HighestVideo by {
      assert HighestAudio[7] != HighestVideo[7];
    }
  }

  // ---------------------------------------------------------------------
  // The output path
  // ---------------------------------------------------------------------

  /** `title.replaceAll(/[^\p{L}\p{N}]/gu, '')`; `isLetterOrNumber` stands for Unicode's L and N categories. */
  function Sanitize(title: string, isLetterOrNumber: char -> bool): (r: string)
    ensures forall i :: 0 <= i < |r| ==> isLetterOrNumber(r[i])
    ensures IsSubsequence(r, title)
  {
    if title == [] then []
    else if isLetterOrNumber(title[0]) then [title[0]] + Sanitize(title[1..], isLetterOrNumber)
    else Sanitize(title[1..], isLetterOrNumber)
  }

  /** Sanitising keeps every letter and number: the count of each such character is unchanged. */
  lemma {:induction false} SanitizeKeepsLettersAndNumbers(title: string, isLetterOrNumber: char -> bool, c: char)
    requires isLetterOrNumber(c)
    ensures multiset(Sanitize(title, isLetterOrNumber))[c] == multiset(title)[c]
  {
    if title != [] {
      SanitizeKeepsLettersAndNumbers(title[1..], isLetterOrNumber, c);
      assert title == [title[0]] + title[1..];
    }
  }

  /** Sanitising a sanitised title changes nothing. */
  lemma {:induction false} SanitizeIdempotent(title: string, isLetterOrNumber: char -> bool)
    ensures Sanitize(Sanitize(title, isLetterOrNumber), isLetterOrNumber) == Sanitize(title, isLetterOrNumber)
  {
    if title != [] {
      SanitizeIdempotent(title[1..], isLetterOrNumber);
      var rest := Sanitize(title[1..], isLetterOrNumber);
      if isLetterOrNumber(title[0]) {
        assert ([title[0]] + rest)[1..] == rest;
      }
    }
  }

  const DownloadDir: string := "./downloads/"

  /** The argument pushed onto the profile: `./downloads/<sanitised title>.<format>`. */
  function OutputPath(title: string, format: string, isLetterOrNumber: char -> bool): (path: string)
    ensures StartsWith(path, DownloadDir)
    ensures path == DownloadDir + Sanitize(title, isLetterOrNumber) + "." + format
    ensures PipeIndex(path).None?
  {
    DownloadDir + Sanitize(title, isLetterOrNumber) + "." + format
  }

  /** A title without letters or numbers still yields a path, one whose file name is only `.` and the format. */
  lemma NoLettersPath(title: string, format: string, isLetterOrNumber: char -> bool)
    requires forall i :: 0 <= i < |title| ==> !isLetterOrNumber(title[i])
    ensures OutputPath(title, format, isLetterOrNumber) == DownloadDir + "." + format
  {
    assert Sanitize(title, isLetterOrNumber) == [] by {
      var r := Sanitize(title, isLetterOrNumber);
      if r != [] {
        SubsequenceMember(r, title, 0);
      }
    }
  }

  // ---------------------------------------------------------------------
  // The video-format filter
  // ---------------------------------------------------------------------

  /** The fields of a video-platform format the filter reads. */
  datatype MediaFormat = MediaFormat(hasAudio: bool, mimeType: string, qualityLabel: string)

  const MaxHeight: int := 1080

  /** The quality label read as `parseInt(label.replaceAll('p', ''))`; `None` is NaN. */
  function LabelHeight(quality: string): Option<int> {
    ParseInt(RemoveAll(quality, 'p'))
  }

  /** `getYoutubeVideoStream`'s filter: video only, a video MIME type and a label of at most 1080. */
  function AcceptsVideo(f: MediaFormat): bool
  {
    !f.hasAudio && StartsWith(f.mimeType, "video")
    && match LabelHeight(f.qualityLabel)
       case None => false   // NaN <= 1080 is false
       case Some(h) => h <= MaxHeight
  }

  /** A plain run of decimal digits parses to the number it writes. */
  lemma ParseDecimal(s: string)
    requires |s| >= 1 && forall i :: 0 <= i < |s| ==> IsDecimalDigit(s[i])
    ensures ParseInt(s) == Some(DigitsValue(s, 10))
  {
    DigitsAreTrimmed(s);
    DigitsAreNotHexPrefix(s);
    DigitRunOfDigits(s);
    assert s[..|s|] == s;
  }

  lemma DigitsAreTrimmed(s: string)
    requires |s| >= 1 && IsDecimalDigit(s[0])
    ensures TrimStart(s) == s && s[0] != '-' && s[0] != '+'
  {
    assert !IsSpace(s[0]);
  }

  lemma DigitRunOfDigits(s: string)
    requires forall i :: 0 <= i < |s| ==> IsDecimalDigit(s[i])
    ensures DigitRun(s, 10) == |s|
  {
  }

  lemma DigitsAreNotHexPrefix(s: string)
    requires forall i :: 0 <= i < |s| ==> IsDecimalDigit(s[i])
    ensures !StartsWith(s, "0x") && !StartsWith(s, "0X")
  {
    if |s| >= 2 {
      assert s[..2][1] == s[1];
    }
  }

  /** Removing the `p`s from digits followed by `p` leaves the digits. */
  lemma {:induction false} RemoveTrailingP(d: string)
    requires forall i :: 0 <= i < |d| ==> IsDecimalDigit(d[i])
    ensures RemoveAll(d + "p", 'p') == d
  {
    if d != [] {
      assert (d + "p")[1..] == d[1..] + "p";
      RemoveTrailingP(d[1..]);
      assert d == [d[0]] + d[1..];
    }
  }

  /**
   * For every label of the form `<digits>p`, the filter accepts a format
   * exactly when it has no audio, its MIME type starts with `video` and the
   * digits write a number of at most 1080.
   */
  lemma DigitLabelAccepted(d: string, hasAudio: bool, mimeType: string)
    requires |d| >= 1 && forall i :: 0 <= i < |d| ==> IsDecimalDigit(d[i])
    ensures LabelHeight(d + "p") == Some(DigitsValue(d, 10))
    ensures AcceptsVideo(MediaFormat(hasAudio, mimeType, d + "p")) <==>
      !hasAudio && StartsWith(mimeType, "video") && DigitsValue(d, 10) <= 1080
  {
    RemoveTrailingP(d);
    ParseDecimal(d);
  }

  /** The digit runs of the examples below, one digit at a time. */
  lemma DecimalPrefixes()
    ensures DigitsValue("1080", 10) == 1080 && DigitsValue("108060", 10) == 108060
  {
    assert DigitsValue("1", 10) == 1 by { assert "1"[..0] == ""; }
    assert DigitsValue("10", 10) == 10 by { assert "10"[..1] == "1"; }
    assert DigitsValue("108", 10) == 108 by { assert "108"[..2] == "10"; }
    assert DigitsValue("1080", 10) == 1080 by { assert "1080"[..3] == "108"; }
    assert DigitsValue("10806", 10) == 10806 by { assert "10806"[..4] == "1080"; }
    assert DigitsValue("108060", 10) == 108060 by { assert "108060"[..5] == "10806"; }
  }

  /** '1080p' reads as 1080 and passes the height check. */
  lemma Label1080()
    ensures LabelHeight("1080p") == Some(1080)
  {
    assert RemoveAll("1080p", 'p') == "1080";
    DecimalPrefixes();
    ParseDecimal("1080");
  }

  /** '1080p60' reads as 108060, so a 60 fps 1080p format fails the height check. */
  lemma Label1080p60()
    ensures LabelHeight("1080p60") == Some(108060)
  {
    RemovesP60();
    DecimalPrefixes();
    DigitsOf108060();
    ParseDecimal("108060");
  }

  lemma DigitsOf108060()
    ensures forall i :: 0 <= i < |"108060"| ==> IsDecimalDigit("108060"[i])
  {
  }

  lemma RemovesP60()
    ensures RemoveAll("1080p60", 'p') == "108060"
  {
  }

  /** A label without digits is NaN, which fails the height check. */
  lemma LabelWithoutDigits(quality: string)
    requires forall c :: c in quality ==> !IsDecimalDigit(c)
    ensures LabelHeight(quality) == None
  {
    var r := RemoveAll(quality, 'p');
    RemoveAllKeepsOthers(quality, 'p');
    forall i | 0 <= i < |r|
      ensures !IsDecimalDigit(r[i])
    {
      assert r[i] in multiset(r);
      assert multiset(quality)[r[i]] > 0;
    }
    ParseWithoutDigits(r);
  }

  /** A text without decimal digits is NaN, whatever blanks, sign or letters it holds. */
  lemma ParseWithoutDigits(s: string)
    requires forall i :: 0 <= i < |s| ==> !IsDecimalDigit(s[i])
    ensures ParseInt(s) == None
  {
    var t := TrimStart(s);
    var u := if t != [] && (t[0] == '-' || t[0] == '+') then t[1..] else t;
    assert u == [] || u[0] == s[|s| - |u|];
    NoDigitFirst(u);
  }

  /** Text that does not start with a digit has neither a hexadecimal prefix nor a leading digit run. */
  lemma NoDigitFirst(u: string)
    requires u == [] || !IsDecimalDigit(u[0])
    ensures !StartsWith(u, "0x") && !StartsWith(u, "0X") && DigitRun(u, 10) == 0
  {
    if |u| >= 2 {
      assert u[..2][0] == u[0];
    }
  }

  /** A text that starts with neither whitespace, a sign nor a digit is NaN. */
  lemma ParseNoDigit(s: string)
    requires s != [] && !IsSpace(s[0]) && !IsDecimalDigit(s[0]) && s[0] != '-' && s[0] != '+'
    ensures ParseInt(s) == None
  {
    assert TrimStart(s) == s;
    assert !StartsWith(s, "0x") && !StartsWith(s, "0X") by {
      assert s[0] != '0';
    }
    assert DigitRun(s, 10) == 0;
  }

  // ---------------------------------------------------------------------
  // The processing reminder
  // ---------------------------------------------------------------------

  /** The message group a reminder draws from. */
  datatype Tier = Initial | Extended | Eons

  /**
   * One reminder on `updateCount`: pre-increment and compare with 20; only
   * if that fails, pre-increment again and compare with 10.
   */
  function ReminderStep(count: int): (r: (Tier, int))
    ensures r.1 == count + 1 || r.1 == count + 2
  {
    if count + 1 > 20 then (Eons, count + 1)
    else if count + 2 > 10 then (Extended, count + 2)
    else (Initial, count + 2)
  }

  /** The counter and the tiers after `n` reminders from a fresh start. */
  function Reminders(n: nat): (r: (int, seq<Tier>))
  {
    if n == 0 then (0, [])
    else
      var (count, tiers) := Reminders(n - 1);
      var (tier, count') := ReminderStep(count);
      (count', tiers + [tier])
  }

  /** The tier of the n-th reminder (counting from 1): five initial, five extended, then eons. */
  function TierOfCall(n: nat): Tier {
    if n <= 5 then Initial else if n <= 10 then Extended else Eons
  }

  /**
   * The counter rises by two per reminder for the first ten, then by one;
   * reminders 1-5 are initial, 6-10 extended, 11 and later eons.
   */
  lemma {:induction false} ReminderTiers(n: nat)
    ensures Reminders(n).0 == (if n <= 10 then 2 * n else n + 10)
    ensures |Reminders(n).1| == n
    ensures forall k :: 0 <= k < n ==> Reminders(n).1[k] == TierOfCall(k + 1)
  {
    if n > 0 {
      ReminderTiers(n - 1);
    }
  }

  /** The deferred reply's successive contents. */
  datatype Notice =
    | NotAuthorized
    | Attempting(url: string)
    | Reminder(tier: Tier, url: string)
    | Completed(url: string)

  /** The interaction object the command decorates with `updateCount` and `complete`. */
  class DownloadInteraction {
    var updateCount: int
    var complete: bool
    var notices: seq<Notice>

    constructor ()
      ensures updateCount == 0 && !complete && notices == []
    {
      updateCount, complete, notices := 0, false, [];
    }

    /** The ffmpeg process's 'close' event. */
    method OnClose(url: string)
      modifies this
      ensures complete && updateCount == old(updateCount)
      ensures notices == old(notices) + [Completed(url)]
    {
      complete := true;
      notices := notices + [Completed(url)];
    }

    /**
     * One tick of `processingReminder`: nothing once the download is complete;
     * otherwise one reminder from the tier the counter reaches, and the timer
     * is armed again.
     */
    method ProcessingReminder(url: string) returns (rearmed: bool)
      modifies this
      ensures complete == old(complete) && rearmed == !complete
      ensures complete ==> updateCount == old(updateCount) && notices == old(notices)
      ensures !complete ==>
        var (tier, count) := ReminderStep(old(updateCount));
        updateCount == count && notices == old(notices) + [Reminder(tier, url)]
    {
      if complete {
        return false;
      }
      var tier: Tier;
      updateCount := updateCount + 1;
      if updateCount > 20 {
        tier := Eons;
      } else {
        updateCount := updateCount + 1;
        if updateCount > 10 {
          tier := Extended;
        } else {
          tier := Initial;
        }
      }
      notices := notices + [Reminder(tier, url)];
      return true;
    }
  }

  // ---------------------------------------------------------------------
  // `execute`
  // ---------------------------------------------------------------------

  /** Which stream the bot pipes in. */
  datatype Source = AudioStream | VideoStream

  /** A stream piped into the descriptor `fd` of the process. */
  datatype Input = Input(source: Source, fd: nat)

  /** The ffmpeg process `execute` spawns, with its arguments and its inputs. */
  datatype Job = Job(args: seq<string>, stdio: seq<Stdio>, inputs: seq<Input>)

  datatype DownloadOutcome =
    | Rejected              // the user is not a downloader
    | Threw                 // getInfo failed, or the type found no profile
    | Started(job: Job)     // ffmpeg spawned, streams piped, the reminder timer armed

  /** The streams each type pipes, and where. */
  function InputsFor(value: string): seq<Input> {
    if value == Highest then [Input(AudioStream, 3), Input(VideoStream, 4)]
    else if value == HighestAudio then [Input(AudioStream, 0)]
    else [Input(VideoStream, 0)]
  }

  /** Every stream lands on a piped descriptor that the arguments name as an input. */
  lemma {:induction false} InputsArePiped(i: nat)
    requires i < |InitialProfiles|
    ensures var p := InitialProfiles[i];
      forall inp :: inp in InputsFor(p.value) ==>
        inp.fd < |p.stdioArgs| && p.stdioArgs[inp.fd] == Pipe && inp.fd in PipesNamed(p.ffmpegArgs)
  {
    HighestPipes();
    AudioPipes();
    VideoPipes();
    assert Highest != HighestAudio && HighestAudio != HighestVideo by {
      assert HighestAudio[7] != HighestVideo[7];
    }
  }

  /**
   * The shared profiles only ever grow: each keeps its value, format and
   * stdio plan, starts with its initial arguments, and keeps its pipes wired.
   */
  ghost predicate ProfilesGrown(profiles: seq<Profile>) {
    SameValues(profiles)
    && forall i :: 0 <= i < |profiles| ==>
         var p, q := profiles[i], InitialProfiles[i];
         p.stdioArgs == q.stdioArgs && p.format == q.format
         && |q.ffmpegArgs| <= |p.ffmpegArgs| && p.ffmpegArgs[..|q.ffmpegArgs|] == q.ffmpegArgs
         && PipesWired(p.ffmpegArgs, p.stdioArgs)
  }

  /** Pushing an argument that names no pipe onto one profile keeps the table grown from the initial one. */
  lemma PushKeepsGrown(profiles: seq<Profile>, i: nat, arg: string)
    requires ProfilesGrown(profiles) && i < |profiles| && PipeIndex(arg).None?
    ensures ProfilesGrown(profiles[i := profiles[i].(ffmpegArgs := profiles[i].ffmpegArgs + [arg])])
  {
    var p := profiles[i];
    PushKeepsWired(p, arg);
    var args := p.ffmpegArgs + [arg];
    assert args[..|InitialProfiles[i].ffmpegArgs|] == InitialProfiles[i].ffmpegArgs;
  }

  /** The `ffmpegConfigs` table, which every request shares and `push` lengthens. */
  class ProfileTable {
    var profiles: seq<Profile>

    /** The table keeps its entries, plans and formats; only arguments are appended, never ones naming a pipe. */
    ghost predicate Valid()
      reads this
    {
      ProfilesGrown(profiles)
    }

    constructor ()
      ensures Valid() && profiles == InitialProfiles
    {
      profiles := InitialProfiles;
      InitialPipes();
    }

    /**
     * `execute` of `/youtube download`. `title` is what `getInfo` answers
     * (`None` when it rejects); `isLetterOrNumber` stands for `\p{L}\p{N}`.
     */
    method Execute(interaction: DownloadInteraction, user: UserId, downloaders: set<UserId>, url: string,
                   title: Option<string>, downloadType: Option<string>, isLetterOrNumber: char -> bool)
      returns (out: DownloadOutcome)
      requires Valid()
      modifies this, interaction
      ensures Valid()
      ensures user !in downloaders ==>
        out == Rejected && profiles == old(profiles)
        && interaction.notices == old(interaction.notices) + [NotAuthorized]
        && interaction.updateCount == old(interaction.updateCount) && interaction.complete == old(interaction.complete)
      ensures user in downloaders ==>
        interaction.updateCount == 0 && !interaction.complete
        && interaction.notices == old(interaction.notices) + [Attempting(url)]
      ensures user in downloaders && title.None? ==> out == Threw && profiles == old(profiles)
      ensures user in downloaders && title.Some? ==>
        var value := downloadType.GetOr(Highest);
        (value !in DownloadTypeChoices ==> out == Threw && profiles == old(profiles))
        && (value in DownloadTypeChoices ==>
          var i := if value == Highest then 0 else if value == HighestAudio then 1 else 2;
          var p := old(profiles)[i];
          var args := p.ffmpegArgs + [OutputPath(title.value, p.format, isLetterOrNumber)];
          FindProfile(old(profiles), value) == Some(i)
          && profiles == old(profiles)[i := p.(ffmpegArgs := args)]
          && out == Started(Job(args, p.stdioArgs, InputsFor(value))))
    {
      if user !in downloaders {
        interaction.notices := interaction.notices + [NotAuthorized];
        return Rejected;
      }
      interaction.updateCount := 0;
      interaction.complete := false;
      interaction.notices := interaction.notices + [Attempting(url)];
      if title.None? {
        return Threw;
      }
      var value := downloadType.GetOr(Highest);
      ChoicesFindProfiles(profiles, value);
      var found := FindProfile(profiles, value);
      if found.None? {
        // `config.format` on undefined throws before anything is pushed or spawned
        return Threw;
      }
      var i := found.value;
      var p := profiles[i];
      var path := OutputPath(title.value, p.format, isLetterOrNumber);
      PushKeepsGrown(profiles, i, path);
      var args := p.ffmpegArgs + [path];
      profiles := profiles[i := p.(ffmpegArgs := args)];
      return Started(Job(args, p.stdioArgs, InputsFor(value)));
    }
  }
}
