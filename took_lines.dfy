/** The `took X out of Y [item]` line form of `_parse_line`. */
module TookLines {
  import opened Wrappers
  import opened Text

  /** The groups of `took\s+(\d+)\s+out\s+of\s+(\d+)\s+(.+)`, matched at the start
      ignoring case: the quantity taken, the total as written, and the rest. */
  datatype Took = Took(qty: nat, total: string, rest: string)

  function TookMatch(s: string): (r: Option<Took>)
    ensures r.Some? ==> r.value.total != [] && AllDigits(r.value.total)
  {
    if !MatchesAt(s, 0, "took") then None
    else
      var k1 := SpaceEnd(s, 4);
      if !(k1 > 4 && k1 < |s| && IsDigit(s[k1])) then None
      else
        var e1 := DigitEnd(s, k1);
        var k2 := SpaceEnd(s, e1);
        if !(k2 > e1 && MatchesAt(s, k2, "out")) then None
        else
          var k3 := SpaceEnd(s, k2 + 3);
          if !(k3 > k2 + 3 && MatchesAt(s, k3, "of")) then None
          else
            var total := TookTotal(s, k3 + 2);
            if total.None? then None
            else Some(Took(DigitsValue(s[k1..e1]), total.value.0, total.value.1))
  }

  /** `\s+(\d+)\s+(.+)` from position `i`: the total as written, and the rest. The
      rest may start with the last of the spaces when nothing follows them. */
  function TookTotal(s: string, i: nat): (r: Option<(string, string)>)
    requires i <= |s|
    ensures r.Some? ==> r.value.0 != [] && AllDigits(r.value.0)
  {
    var k4 := SpaceEnd(s, i);
    if !(k4 > i && k4 < |s| && IsDigit(s[k4])) then None
    else
      var e2 := DigitEnd(s, k4);
      var k5 := SpaceEnd(s, e2);
      assert AllDigits(s[k4..e2]) by {
        forall j | 0 <= j < e2 - k4
          ensures IsDigit(s[k4..e2][j])
        {
          assert s[k4..e2][j] == s[k4 + j];
        }
      }
      if k5 == e2 then None
      else if k5 < |s| then Some((s[k4..e2], s[k5..]))
      else if k5 - 1 > e2 then Some((s[k4..e2], s[k5 - 1..]))
      else None
  }

  /** A line written `took X out of Y rest` is read back as its three groups. */
  lemma TookRead(x: nat, y: nat, rest: string)
    requires rest != [] && !IsSpace(rest[0])
    ensures TookMatch("took " + NatToString(x) + " out of " + NatToString(y) + " " + rest)
            == Some(Took(x, NatToString(y), rest))
  {
    var sx, sy := NatToString(x), NatToString(y);
    TookLineParts(sx, sy, rest, "took " + sx + " out of " + sy + " " + rest);
    NatToStringRoundTrip(x);
  }

  /** The same, for any digit strings: the line is split at its separators. */
  lemma TookLineParts(sx: string, sy: string, rest: string, s: string)
    requires sx != [] && AllDigits(sx) && sy != [] && AllDigits(sy) && rest != [] && !IsSpace(rest[0])
    requires s == "took " + sx + " out of " + sy + " " + rest
    ensures TookMatch(s) == Some(Took(DigitsValue(sx), sy, rest))
  {
    TookPieces(sx, sy + " " + rest, s);
    assert s[12 + |sx|..] == " " + sy + " " + rest;
    TookHead(s, sx);
    TookTotalRead(s, 12 + |sx|, sy, rest);
    TookMatchFrom(s, sx, sy, rest);
  }

  /** The separators of `took X out of ` and the total read after them decide the match. */
  lemma TookMatchFrom(s: string, sx: string, sy: string, rest: string)
    requires sx != [] && 13 + |sx| <= |s| && s[5..5 + |sx|] == sx && AllDigits(sx)
    requires var e1 := 5 + |sx|;
             MatchesAt(s, 0, "took") && SpaceEnd(s, 4) == 5 && IsDigit(s[5])
             && DigitEnd(s, 5) == e1 && SpaceEnd(s, e1) == e1 + 1
             && MatchesAt(s, e1 + 1, "out") && SpaceEnd(s, e1 + 4) == e1 + 5
             && MatchesAt(s, e1 + 5, "of")
    requires TookTotal(s, 12 + |sx|) == Some((sy, rest))
    ensures TookMatch(s) == Some(Took(DigitsValue(sx), sy, rest))
  {
  }

  /** The pieces of `took <sx> out of <tail>`. */
  lemma TookPieces(sx: string, tail: string, s: string)
    requires s == "took " + sx + " out of " + tail
    ensures |s| == 13 + |sx| + |tail|
    ensures s[..5] == "took " && s[5..5 + |sx|] == sx && s[5 + |sx|..13 + |sx|] == " out of "
    ensures s[12 + |sx|..] == " " + tail
  {
    var e1 := 5 + |sx|;
    assert s[..5] == "took " && s[5..e1] == sx && s[e1..e1 + 8] == " out of ";
    assert s[e1 + 7..] == " " + tail;
  }

  /** Where the separators of `took X out of ` end. */
  lemma TookHead(s: string, sx: string)
    requires sx != [] && AllDigits(sx)
    requires 13 + |sx| < |s| && s[..5] == "took " && s[5..5 + |sx|] == sx
    requires s[5 + |sx|..13 + |sx|] == " out of "
    ensures var e1 := 5 + |sx|;
            MatchesAt(s, 0, "took") && SpaceEnd(s, 4) == 5 && IsDigit(s[5])
            && DigitEnd(s, 5) == e1 && SpaceEnd(s, e1) == e1 + 1
            && MatchesAt(s, e1 + 1, "out") && SpaceEnd(s, e1 + 4) == e1 + 5
            && MatchesAt(s, e1 + 5, "of")
  {
    var e1 := 5 + |sx|;
    assert s[..4] == "took" && s[4] == ' ' && s[5] == sx[0];
    MatchesSlice(s, 0, "took");
    SpaceEndOne(s, 4);
    forall k | 5 <= k < e1
      ensures IsDigit(s[k])
    {
      assert s[5..e1][k - 5] == s[k];
    }
    DigitEndIs(s, 5, e1);
    OutOfAt(s, e1);
    SpaceEndOne(s, e1);
    SpaceEndOne(s, e1 + 4);
  }

  /** The words and spaces of ` out of ` written at `e`. */
  lemma OutOfAt(s: string, e: nat)
    requires e + 8 <= |s| && s[e..e + 8] == " out of "
    ensures s[e] == ' ' && s[e + 1] == 'o' && s[e + 4] == ' ' && s[e + 5] == 'o'
    ensures MatchesAt(s, e + 1, "out") && MatchesAt(s, e + 5, "of")
  {
    var sep := s[e..e + 8];
    forall k | 0 <= k < 8
      ensures s[e + k] == " out of "[k]
    {
      assert s[e + k] == sep[k];
    }
    assert s[e + 1..e + 4] == "out" by {
      assert s[e + 1] == 'o' && s[e + 2] == 'u' && s[e + 3] == 't';
    }
    assert s[e + 5..e + 7] == "of" by {
      assert s[e + 5] == 'o' && s[e + 6] == 'f';
    }
    MatchesSlice(s, e + 1, "out");
    MatchesSlice(s, e + 5, "of");
  }

  /** `\s+(\d+)\s+(.+)` read from a space: the total and a rest that starts with no space. */
  lemma TookTotalRead(s: string, i: nat, sy: string, rest: string)
    requires sy != [] && AllDigits(sy) && rest != [] && !IsSpace(rest[0])
    requires i <= |s| && s[i..] == " " + sy + " " + rest
    ensures TookTotal(s, i) == Some((sy, rest))
  {
    var e2 := i + 1 + |sy|;
    assert s[i..][0] == ' ' && s[i..][1..1 + |sy|] == sy && s[i..][1 + |sy|] == ' ' && s[i..][2 + |sy|..] == rest;
    assert s[i + 1] == sy[0] && s[i + 1..e2] == sy && s[e2 + 1..] == rest;
    assert SpaceEnd(s, i) == i + 1;
    DigitEndIs(s, i + 1, e2);
    assert SpaceEnd(s, e2) == e2 + 1;
  }
}
