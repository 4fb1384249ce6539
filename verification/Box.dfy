/**
 A small television box: two display modes, and two movies that suit one of them each.
 */
module Box {
  import opened Rates
  import opened Modes
  import opened Displays
  import opened Detector
  import opened ModeSearch

  const M60 := Mode("720p60hz", 1280, 720, 60, false, false)
  const M50 := Mode("720p50hz", 1280, 720, 50, false, false)

  lemma LeadingTwo(s: string, acc: nat)
    requires |s| >= 3 && IsDigit(s[0]) && IsDigit(s[1]) && !IsDigit(s[2])
    ensures LeadingInt(s, acc) == (acc * 10 + (s[0] as int - '0' as int)) * 10 + (s[1] as int - '0' as int)
    ensures AfterInt(s) == s[2..]
  {
    var t := s[1..][1..];
    assert t == s[2..] && t[0] == s[2] && s[1..][0] == s[1];
    assert LeadingInt(t, (acc * 10 + (s[0] as int - '0' as int)) * 10 + (s[1] as int - '0' as int)) ==
           (acc * 10 + (s[0] as int - '0' as int)) * 10 + (s[1] as int - '0' as int);
    assert AfterInt(t) == t && AfterInt(s[1..]) == t;
  }

  lemma LeadingThree(s: string)
    requires |s| >= 4 && s[..3] == "720" && !IsDigit(s[3])
    ensures LeadingInt(s, 0) == 720 && AfterInt(s) == s[3..]
  {
    assert s[0] == s[..3][0] == '7' && s[1] == s[..3][1] == '2' && s[2] == s[..3][2] == '0';
    var t := s[1..];
    assert t[0] == '2' && t[1] == '0' && t[2] == s[3] && t[2..] == s[3..];
    LeadingTwo(t, 7);
  }

  lemma NameParses(s: string, rate: nat)
    requires |s| == 8 && s[..3] == "720" && s[3] == 'p' && IsDigit(s[4]) && s[5] == '0' && s[6] == 'h'
    requires rate == (s[4] as int - '0' as int) * 10
    ensures ParseMode(s) == Some(Mode(s, 1280, 720, rate, false, false))
  {
    assert s[0] == '7';
    LeadingThree(s);
    assert s[3..][0] == 'p' && s[3..][1..] == s[4..];
    LeadingTwo(s[4..], 0);
  }

  lemma NamesParse()
    ensures ParseMode(M60.name) == Some(M60) && ParseMode(M50.name) == Some(M50)
  {
    assert M60.name[..3] == "720" && M50.name[..3] == "720";
    NameParses(M60.name, 60);
    NameParses(M50.name, 50);
  }

  lemma BoxList()
    ensures ListedNames([], [M60.name, M50.name]) == [M60, M50]
  {
    NamesParse();
    var names, one := [M60.name, M50.name], [M60.name];
    assert names[..1] == one && one[..0] == [];
    var none: seq<string> := [];
    assert ListedNames([], none) == [];
    assert ListedNames([], one) == [M60];
    assert Listed([M60], M50) == [M60, M50];
  }

  lemma BoxScreen()
    ensures SaneNames([M60.name, M50.name]) && Recognised(M60.name)
    ensures Initialised(Found(M60.name, false), Some([M60.name, M50.name]), []) ==
            Screen([M60, M50], M60, false, M60.name, false, [Write(M60.name, false)])
  {
    NamesParse();
    BoxList();
    var modes := [M60, M50];
    assert Equal(M60, modes[0]);
    assert Listed(modes, M60) == modes;
  }

  /** Movies at 50 Hz and at 59.94 Hz. */
  lemma MovieRates()
    ensures DurationHz(1920) == 12800 && DurationHz(1602) == 15345
  {
    FrameHzIsRoundable(1920);
    HzRoundMeaning(FrameHz(1920));
    assert FrameHz(1920) == 12800;
    assert 12800 in SANE_HZ && HzClose(12800, 12800);
    FrameHzIsRoundable(1602);
    HzRoundMeaning(FrameHz(1602));
    assert FrameHz(1602) == 15341;
    assert 15345 in SANE_HZ && HzClose(15341, 15345);
  }

  lemma BoxModes(q: Query)
    requires q.blacklist == [] && !q.preferExact && SameGeometry(M60, q.current)
    ensures q.hz == 12800 ==> FoundMode([M60, M50], q) == Some(M50)
    ensures q.hz == 15345 ==> FoundMode([M60, M50], q) == Some(M60.(fractional := true))
  {
    var modes := [M60, M50];
    if q.hz == 12800 || q.hz == 15345 {
      assert BestIndex(modes, q, 0) == -1;
      assert BestIndex(modes, q, 1) == if Score(M60, q) > 0 then 0 else -1;
    }
  }
}
