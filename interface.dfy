/** The name under which the perturbation interface saves a session: the input file's base
    name without extension, without the timestamp of an earlier session, marked as perturbed
    once, followed by the digits of the current time. */
module Interface {
  import opened Results
  import opened PyStrings

  /** `path.split("/")[-1].split(".")[0]`: the last path component up to its first dot. */
  function FilenamePrefix(path: string): (r: string)
    ensures '/' !in r && '.' !in r
  {
    BeforeFirst(AfterLast(path, '/'), '.')
  }

  /** The directory part of a path does not matter. */
  lemma PrefixIgnoresDirectory(dir: string, name: string)
    ensures FilenamePrefix(dir + "/" + name) == FilenamePrefix(name)
  {
    assert dir + "/" + name == dir + ['/'] + name;
    AfterLastOfJoin(dir, '/', name);
  }

  // ----- `re.sub('_2019[0-9]*$', '', prefix)` -----

  /** The pattern `_2019[0-9]*$` matches `s` from position `p`: `_2019`, then digits up to the
      end of the string or up to a final newline (where Python's `$` also matches). */
  predicate Stamp2019At(s: string, p: nat)
  {
    && p + 5 <= |s|
    && s[p..p + 5] == "_2019"
    && (AllDigits(s[p + 5..]) || (p + 5 < |s| && s[|s| - 1] == '\n' && AllDigits(s[p + 5..|s| - 1])))
  }

  /** The leftmost match at or after `from`. */
  function FirstStamp(s: string, from: nat): (r: Option<nat>)
    requires from <= |s|
    ensures r.Some? ==> from <= r.value && Stamp2019At(s, r.value)
    ensures r.Some? ==> forall p :: from <= p < r.value ==> !Stamp2019At(s, p)
    ensures r.None? ==> forall p :: from <= p ==> !Stamp2019At(s, p)
    decreases |s| - from
  {
    if from + 5 > |s| then None
    else if Stamp2019At(s, from) then Some(from)
    else FirstStamp(s, from + 1)
  }

  /** Removing the match, if any; a final newline after the digits stays. */
  function StripTimestamp(s: string): (r: string)
    ensures (forall p :: !Stamp2019At(s, p)) ==> r == s
  {
    match FirstStamp(s, 0)
    case None => s
    case Some(p) => if AllDigits(s[p + 5..]) then s[..p] else s[..p] + "\n"
  }

  /** What a match says about the characters of `s`: a `_` where it starts, `2019` after it,
      and no `_` anywhere behind it. */
  lemma StampShape(s: string, p: nat)
    ensures Stamp2019At(s, p) ==> s[p] == '_' && s[p + 1..p + 5] == "2019"
    ensures Stamp2019At(s, p) ==> forall q :: p < q < |s| ==> s[q] != '_'
  {
    if Stamp2019At(s, p) {
      assert s[p] == s[p..p + 5][0];
      assert s[p + 1..p + 5] == s[p..p + 5][1..];
      forall q | p < q < |s|
        ensures s[q] != '_'
      {
        if q < p + 5 {
          assert s[q] == "_2019"[q - p];
        } else if AllDigits(s[p + 5..]) {
          assert s[q] == s[p + 5..][q - p - 5];
        } else if q < |s| - 1 {
          assert s[q] == s[p + 5..|s| - 1][q - p - 5];
        }
      }
    }
  }

  /** Only one position can match: everything after `_2019` is digits, so there is no other
      `_` behind it. */
  lemma StampIsUnique(s: string, p: nat, q: nat)
    requires Stamp2019At(s, p) && Stamp2019At(s, q)
    ensures p == q
  {
    StampShape(s, p);
    StampShape(s, q);
  }

  /** A name ending in `_2019` and digits loses exactly that ending. */
  lemma StripStamped(base: string, digits: string)
    requires AllDigits(digits)
    ensures StripTimestamp(base + "_2019" + digits) == base
  {
    var s := base + "_2019" + digits;
    assert s[|base|..|base| + 5] == "_2019";
    assert s[|base| + 5..] == digits;
    assert Stamp2019At(s, |base|);
    var p := FirstStamp(s, 0).value;
    StampIsUnique(s, p, |base|);
    assert s[..|base|] == base;
  }

  /** A name ending in `_` and digits that do not start with `2019` is left alone. */
  lemma NoStampAfterOtherDigits(base: string, digits: string)
    requires AllDigits(digits) && !(|digits| >= 4 && digits[..4] == "2019")
    ensures StripTimestamp(base + "_" + digits) == base + "_" + digits
  {
    var s := base + "_" + digits;
    assert s[|base|] == '_';
    assert |digits| >= 4 ==> s[|base| + 1..|base| + 5] == digits[..4];
    assert forall q :: |base| < q < |s| ==> s[q] == digits[q - |base| - 1];
    forall p: nat
      ensures !Stamp2019At(s, p)
    {
      StampShape(s, p);
    }
  }

  // ----- The output name -----

  /** `_perturbed` is added unless the name already has it. */
  function NameSuffix(prefix: string): string
  {
    if Contains(prefix, "_perturbed") then "" else "_perturbed"
  }

  /** `re.sub('[^0-9]', '', str(now).split('.')[0])`: the digits of the current time, without
      the fraction of a second. */
  function Timestamp(now: string): (r: string)
    ensures AllDigits(r)
  {
    DigitsOnly(BeforeFirst(now, '.'))
  }

  /** The name without timestamp and extension: prefix, earlier timestamp removed, suffix. */
  function Stem(path: string): string
  {
    var prefix := StripTimestamp(FilenamePrefix(path));
    prefix + NameSuffix(prefix)
  }

  /** `interface.py`, lines 73 to 81: the name of the output file, written in the current directory. */
  function OutputFilename(path: string, now: string): string
  {
    Stem(path) + "_" + Timestamp(now) + ".json"
  }

  /** Whatever the prefix, the name it gets is marked as perturbed. */
  lemma NameIsMarked(prefix: string)
    ensures Contains(prefix + NameSuffix(prefix), "_perturbed")
  {
    if Contains(prefix, "_perturbed") {
      ContainsInLonger(prefix, "", "_perturbed");
      assert prefix + "" == prefix;
    } else {
      var t := prefix + "_perturbed";
      assert t[|prefix|..|prefix| + 10] == "_perturbed";
      ContainsAt(t, "_perturbed", |prefix|);
    }
  }

  /** A name that is already marked gets no second `_perturbed`. */
  lemma MarkedNameKept(prefix: string)
    requires Contains(prefix, "_perturbed")
    ensures prefix + NameSuffix(prefix) == prefix
  {
  }

  /** Removing a timestamp only removes characters. */
  lemma StripKeepsCharacters(s: string)
    ensures forall c :: c in StripTimestamp(s) ==> c in s
  {
    match FirstStamp(s, 0)
    case None =>
    case Some(p) =>
      assert s[|s| - 1..] == "\n" ==> forall c :: c in "\n" ==> c in s;
      if !AllDigits(s[p + 5..]) {
        assert s[|s| - 1] == '\n';
      }
  }

  /** Every stem is marked as perturbed. */
  lemma StemIsPerturbed(path: string)
    ensures Contains(Stem(path), "_perturbed")
  {
    NameIsMarked(StripTimestamp(FilenamePrefix(path)));
  }

  /** The stem has neither slash nor dot. */
  lemma StemHasNoSeparators(path: string)
    ensures '/' !in Stem(path) && '.' !in Stem(path)
  {
    var prefix := StripTimestamp(FilenamePrefix(path));
    StripKeepsCharacters(FilenamePrefix(path));
    NameHasNoSeparators(prefix);
  }

  /** The suffix brings in neither slash nor dot. */
  lemma NameHasNoSeparators(prefix: string)
    requires '/' !in prefix && '.' !in prefix
    ensures '/' !in prefix + NameSuffix(prefix) && '.' !in prefix + NameSuffix(prefix)
  {
    assert forall i :: 0 <= i < |"_perturbed"| ==> "_perturbed"[i] != '/' && "_perturbed"[i] != '.';
  }

  /** Reading a name of the output's shape back gives what came before the extension. */
  lemma PrefixOfName(stem: string, t: string)
    requires '/' !in stem && '.' !in stem && AllDigits(t)
    ensures FilenamePrefix(stem + "_" + t + ".json") == stem + "_" + t
  {
    var name := stem + "_" + t;
    assert '.' !in name && '/' !in name by {
      forall i | 0 <= i < |t|
        ensures t[i] != '.' && t[i] != '/'
      {
        assert IsDigit(t[i]);
      }
    }
    var out := stem + "_" + t + ".json";
    assert out == name + ['.'] + "json";
    assert '/' !in out;
    assert AfterLast(out, '/') == out;
    BeforeFirstOfJoin(name, '.', "json");
  }

  /** Reading the output name back gives what came before the extension. */
  lemma PrefixOfOutput(path: string, now: string)
    ensures FilenamePrefix(OutputFilename(path, now)) == Stem(path) + "_" + Timestamp(now)
  {
    StemHasNoSeparators(path);
    PrefixOfName(Stem(path), Timestamp(now));
  }

  /** A 2019 timestamp behind a name is removed. */
  lemma Strip2019Stamp(stem: string, t: string)
    requires AllDigits(t) && |t| >= 4 && t[..4] == "2019"
    ensures StripTimestamp(stem + "_" + t) == stem
  {
    assert stem + "_" + t == stem + "_2019" + t[4..];
    StripStamped(stem, t[4..]);
  }

  /** A marked stem followed by a 2019 timestamp reads back as the stem. */
  lemma StemOf2019Name(stem: string, t: string)
    requires '/' !in stem && '.' !in stem && Contains(stem, "_perturbed")
    requires AllDigits(t) && |t| >= 4 && t[..4] == "2019"
    ensures Stem(stem + "_" + t + ".json") == stem
  {
    PrefixOfName(stem, t);
    Strip2019Stamp(stem, t);
    MarkedNameKept(stem);
  }

  /** A marked stem followed by another timestamp reads back with the timestamp. */
  lemma StemOfOtherName(stem: string, t: string)
    requires '/' !in stem && '.' !in stem && Contains(stem, "_perturbed")
    requires AllDigits(t) && !(|t| >= 4 && t[..4] == "2019")
    ensures Stem(stem + "_" + t + ".json") == stem + "_" + t
  {
    PrefixOfName(stem, t);
    NoStampAfterOtherDigits(stem, t);
    MarkedWithStamp(stem, t);
    MarkedNameKept(stem + "_" + t);
  }

  /** A marked stem stays marked with a timestamp behind it. */
  lemma MarkedWithStamp(stem: string, t: string)
    requires Contains(stem, "_perturbed")
    ensures Contains(stem + "_" + t, "_perturbed")
  {
    ContainsInLonger(stem, "_" + t, "_perturbed");
    assert stem + "_" + t == stem + ("_" + t);
  }

  /** The promise of the usage text, for a session saved in 2019: feeding its output back in
      gives the same stem, so neither `_perturbed` nor timestamps pile up. */
  lemma ReFeedKeepsStemIn2019(path: string, now: string)
    requires |Timestamp(now)| >= 4 && Timestamp(now)[..4] == "2019"
    ensures Stem(OutputFilename(path, now)) == Stem(path)
  {
    StemHasNoSeparators(path);
    StemIsPerturbed(path);
    StemOf2019Name(Stem(path), Timestamp(now));
  }

  /** A session saved after 2019 keeps the earlier timestamp in the name: the stem grows by
      one timestamp every time an output is fed back in. */
  lemma ReFeedGrowsStemAfter2019(path: string, now: string)
    requires !(|Timestamp(now)| >= 4 && Timestamp(now)[..4] == "2019")
    ensures Stem(OutputFilename(path, now)) == Stem(path) + "_" + Timestamp(now)
  {
    StemHasNoSeparators(path);
    StemIsPerturbed(path);
    StemOfOtherName(Stem(path), Timestamp(now));
  }

  /** A session of 14 October 2026 at 09:30 on `data.json` writes
      `data_perturbed_20261014093000.json`; feeding that back in keeps the old timestamp, so
      the next output is `data_perturbed_20261014093000_<new timestamp>.json`. */
  lemma ReFeedIn2026(stem: string, t: string)
    requires stem == "data_perturbed" && t == "20261014093000"
    ensures Stem(stem + "_" + t + ".json") == stem + "_" + t
  {
    assert forall k :: 0 <= k < |stem| ==> stem[k] != '.' && stem[k] != '/';
    assert stem[4..14] == "_perturbed";
    ContainsAt(stem, "_perturbed", 4);
    assert forall k :: 0 <= k < |t| ==> IsDigit(t[k]);
    assert t[..4] == "2026";
    StemOfOtherName(stem, t);
  }

  /** One more separator and run of digits keeps the digits and adds no dot. */
  lemma JoinDigits(a: string, c: char, b: string)
    requires '.' !in a && c != '.' && !IsDigit(c) && AllDigits(b)
    ensures DigitsOnly(a + [c] + b) == DigitsOnly(a) + b
    ensures '.' !in a + [c] + b
  {
    DigitsOnlyConcat(a + [c], b);
    DigitsOnlyConcat(a, [c]);
    DigitsOnlyOfChar(c);
    NoDotInDigits(b);
    NoDotInJoin(a, c, b);
  }

  /** A dot-free join of dot-free parts. */
  lemma NoDotInJoin(a: string, c: char, b: string)
    requires '.' !in a && c != '.' && '.' !in b
    ensures '.' !in a + [c] + b
  {
    var s := a + [c] + b;
    forall k | 0 <= k < |s|
      ensures s[k] != '.'
    {
      if k < |a| {
        assert s[k] == a[k];
      } else if k > |a| {
        assert s[k] == b[k - |a| - 1];
      }
    }
  }

  /** Digits are not dots. */
  lemma NoDotInDigits(b: string)
    requires AllDigits(b)
    ensures '.' !in b
  {
    forall k | 0 <= k < |b|
      ensures b[k] != '.'
    {
      assert IsDigit(b[k]);
    }
  }

  /** `str(datetime.now())` reads `YYYY-MM-DD HH:MM:SS.ffffff`; its timestamp is the digits
      of date and time, without the fraction of a second. */
  lemma TimestampOfClock(year: string, month: string, day: string, hour: string, minute: string,
                         second: string, fraction: string)
    requires AllDigits(year) && AllDigits(month) && AllDigits(day)
    requires AllDigits(hour) && AllDigits(minute) && AllDigits(second)
    ensures Timestamp(year + "-" + month + "-" + day + " " + hour + ":" + minute + ":" + second + "." + fraction)
         == year + month + day + hour + minute + second
  {
    NoDotInDigits(year);
    var s1 := year + ['-'] + month;
    JoinDigits(year, '-', month);
    var s2 := s1 + ['-'] + day;
    JoinDigits(s1, '-', day);
    var s3 := s2 + [' '] + hour;
    JoinDigits(s2, ' ', hour);
    var s4 := s3 + [':'] + minute;
    JoinDigits(s3, ':', minute);
    var clock := s4 + [':'] + second;
    JoinDigits(s4, ':', second);
    assert year + "-" + month + "-" + day + " " + hour + ":" + minute + ":" + second + "." + fraction
        == clock + ['.'] + fraction;
    BeforeFirstOfJoin(clock, '.', fraction);
  }

  /** At 09:30 on 14 October 2026 the timestamp is `20261014093000`. */
  lemma TimestampOn14October2026(now: string)
    requires now == "2026-10-14 09:30:00.123456"
    ensures Timestamp(now) == "20261014093000"
  {
    ClockOn14October2026(now);
    TimestampOfClock("2026", "10", "14", "09", "30", "00", "123456");
    DigitsOn14October2026();
  }

  /** The clock text of 09:30 on 14 October 2026 in its parts. */
  lemma ClockOn14October2026(now: string)
    requires now == "2026-10-14 09:30:00.123456"
    ensures now == "2026" + "-" + "10" + "-" + "14" + " " + "09" + ":" + "30" + ":" + "00" + "." + "123456"
    ensures AllDigits("2026") && AllDigits("10") && AllDigits("14") && AllDigits("09") && AllDigits("30") && AllDigits("00")
  {
    assert "2026" + "-" + "10" + "-" + "14" == "2026-10-14";
    assert "2026" + "-" + "10" + "-" + "14" + " " + "09" + ":" + "30" + ":" + "00" == "2026-10-14 09:30:00";
  }

  /** The digits of 09:30 on 14 October 2026 in one string. */
  lemma DigitsOn14October2026()
    ensures "2026" + "10" + "14" + "09" + "30" + "00" == "20261014093000"
  {
    assert "2026" + "10" + "14" == "20261014";
  }

  /** The stem of `data.json` is `data_perturbed`. */
  lemma StemOfDataJson(path: string)
    requires path == "data.json"
    ensures Stem(path) == "data_perturbed"
  {
    assert path == "data" + "." + "json";
    assert forall k :: 0 <= k < 4 ==> "data"[k] != '.' && "data"[k] != '/';
    PrefixOfPlainName("data", "json");
    assert FilenamePrefix(path) == "data";
    assert StripTimestamp("data") == "data";
    assert !Contains("data", "_perturbed");
    assert NameSuffix("data") == "_perturbed";
    NamesOn14October2026();
  }

  /** The names of the session at 09:30 on 14 October 2026 on `data.json`, piece by piece. */
  lemma NamesOn14October2026()
    ensures "data" + "_perturbed" == "data_perturbed"
    ensures "data_perturbed" + "_" + "20261014093000" == "data_perturbed_20261014093000"
    ensures "data_perturbed" + "_" + "20261014093000" + ".json" == "data_perturbed_20261014093000.json"
  {
  }

  /** The session at 09:30 on 14 October 2026 on `data.json`: its output is
      `data_perturbed_20261014093000.json`, and the stem read back from that name keeps the
      timestamp. */
  lemma SessionOn14October2026(path: string, now: string)
    requires path == "data.json" && now == "2026-10-14 09:30:00.123456"
    ensures OutputFilename(path, now) == "data_perturbed_20261014093000.json"
    ensures Stem(OutputFilename(path, now)) == "data_perturbed_20261014093000"
  {
    TimestampOn14October2026(now);
    StemOfDataJson(path);
    NamesOn14October2026();
    ReFeedIn2026("data_perturbed", "20261014093000");
  }

  /** The name `base.ext` for a base without dot or slash reads back as `base`. */
  lemma PrefixOfPlainName(base: string, ext: string)
    requires '/' !in base && '.' !in base && '/' !in ext
    ensures FilenamePrefix(base + "." + ext) == base
  {
    var name := base + "." + ext;
    assert name == base + ['.'] + ext;
    assert '/' !in name;
    assert AfterLast(name, '/') == name;
    BeforeFirstOfJoin(base, '.', ext);
  }

  // ----- Removing any session timestamp -----

  /** A trailing `_` and the 14 digits of a session timestamp. */
  predicate EndsWithSessionStamp(s: string)
  {
    |s| >= 15 && s[|s| - 15] == '_' && AllDigits(s[|s| - 14..])
  }

  /** Removing the timestamp of an earlier session whatever its year. */
  function StripSessionStamp(s: string): (r: string)
    ensures EndsWithSessionStamp(s) ==> r == s[..|s| - 15]
    ensures !EndsWithSessionStamp(s) ==> r == s
  {
    if EndsWithSessionStamp(s) then s[..|s| - 15] else s
  }

  /** The stem with any session timestamp removed. */
  function SessionStem(path: string): string
  {
    var prefix := StripSessionStamp(FilenamePrefix(path));
    prefix + NameSuffix(prefix)
  }

  /** The output name built on `SessionStem`. */
  function SessionOutputFilename(path: string, now: string): string
  {
    SessionStem(path) + "_" + Timestamp(now) + ".json"
  }

  /** Removing a session timestamp only removes characters. */
  lemma SessionStemHasNoSeparators(path: string)
    ensures '/' !in SessionStem(path) && '.' !in SessionStem(path)
  {
    var prefix := FilenamePrefix(path);
    assert forall c :: c in StripSessionStamp(prefix) ==> c in prefix;
  }

  /** A session timestamp behind a name is removed. */
  lemma StripSessionStampOfName(stem: string, t: string)
    requires AllDigits(t) && |t| == 14
    ensures StripSessionStamp(stem + "_" + t) == stem
  {
    var name := stem + "_" + t;
    assert name[|name| - 14..] == t;
    assert name[..|name| - 15] == stem;
  }

  /** A marked stem followed by a session timestamp reads back as the stem. */
  lemma SessionStemOfName(stem: string, t: string)
    requires '/' !in stem && '.' !in stem && Contains(stem, "_perturbed")
    requires AllDigits(t) && |t| == 14
    ensures SessionStem(stem + "_" + t + ".json") == stem
  {
    PrefixOfName(stem, t);
    StripSessionStampOfName(stem, t);
    MarkedNameKept(stem);
  }

  /** With the timestamp of any year removed, feeding an output back in keeps the stem. */
  lemma ReFeedKeepsSessionStem(path: string, now: string)
    requires |Timestamp(now)| == 14
    ensures SessionStem(SessionOutputFilename(path, now)) == SessionStem(path)
  {
    SessionStemHasNoSeparators(path);
    NameIsMarked(StripSessionStamp(FilenamePrefix(path)));
    SessionStemOfName(SessionStem(path), Timestamp(now));
  }
}
