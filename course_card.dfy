/** The thumbnail choice of the course card: a course's own image is shown only when its URL
    looks like an uploaded thumbnail; every other URL is replaced by a fixed stock photo. */
module CourseCard {
  import opened Strings

  /** `defaultUrl`, written in pieces around its only letter `n` so that the proof below can
      find it. */
  const DefaultHead: string := "https://images.u"
  const Tail0: string := "splash.com/photo-166"
  const Tail1: string := "4574654700-75f1c1fad"
  const Tail2: string := "74e?q=80&w=1587&auto"
  const Tail3: string := "=format&fit=crop&ixl"
  const Tail4: string := "ib=rb-4.0.3&ixid=M3w"
  const Tail5: string := "xMjA3fDB8MHxwaG90by1"
  const Tail6: string := "wYWdlfHx8fGVufDB8fHx"
  const Tail7: string := "8fA%3D%3D"
  const DefaultTail: string := Tail0 + Tail1 + Tail2 + Tail3 + Tail4 + Tail5 + Tail6 + Tail7
  const DefaultUrl: string := DefaultHead + "n" + DefaultTail

  /** `selectUrl(url)`: the URL itself when it contains `thumbnails` (case-sensitive), the
      stock photo otherwise. */
  function SelectUrl(url: string): (r: string)
    ensures r == url || r == DefaultUrl
    ensures r == url <==> Contains(url, "thumbnails") || url == DefaultUrl
  {
    if Contains(url, "thumbnails") then url else DefaultUrl
  }

  lemma FirstPiecesLackN()
    ensures 'n' !in DefaultHead && 'n' !in Tail0 && 'n' !in Tail1
  {
  }

  lemma MiddlePiecesLackN()
    ensures 'n' !in Tail2 && 'n' !in Tail3 && 'n' !in Tail4
  {
  }

  lemma LastPiecesLackN()
    ensures 'n' !in Tail5 && 'n' !in Tail6 && 'n' !in Tail7
  {
  }

  /** The head and the tail of the stock URL hold no `n`. */
  lemma DefaultPiecesLackN()
    ensures 'n' !in DefaultHead && 'n' !in DefaultTail
  {
    FirstPiecesLackN();
    MiddlePiecesLackN();
    LastPiecesLackN();
  }

  /** A string whose only `n` follows a letter other than `b` does not contain `thumbnails`. */
  lemma NoThumbnailsAroundN(s: string, p: nat)
    requires p < |s| && forall i :: 0 <= i < |s| && i != p ==> s[i] != 'n'
    requires p == 0 || s[p - 1] != 'b'
    ensures !Contains(s, "thumbnails")
  {
    forall i | 0 <= i <= |s| - 10
      ensures !OccursAt(s, "thumbnails", i)
    {
      if i + 5 != p {
        assert s[i + 5] != 'n';
      } else {
        assert s[i + 4] != 'b';
      }
    }
  }

  /** The stock URL does not contain `thumbnails`: its one `n` is preceded by `u`, where
      `thumbnails` has `b`. */
  lemma DefaultUrlHasNoThumbnails()
    ensures !Contains(DefaultUrl, "thumbnails")
  {
    DefaultPiecesLackN();
    var d := DefaultUrl;
    var p := |DefaultHead|;
    forall i | 0 <= i < |d| && i != p
      ensures d[i] != 'n'
    {
      if i < p {
        assert d[i] == DefaultHead[i];
      } else {
        assert d[i] == DefaultTail[i - p - 1];
      }
    }
    assert d[p - 1] == DefaultHead[p - 1] == 'u';
    NoThumbnailsAroundN(d, p);
  }

  /** Choosing twice is choosing once: the stock photo is kept as it is. */
  lemma SelectUrlIdempotent(url: string)
    ensures SelectUrl(SelectUrl(url)) == SelectUrl(url)
  {
    DefaultUrlHasNoThumbnails();
  }

  /** A URL with `thumbnails` anywhere is shown; one without, or with a different case, is
      replaced. */
  lemma SelectUrlCases(prefix: string, suffix: string, other: string)
    requires !Contains(other, "thumbnails")
    ensures SelectUrl(prefix + "thumbnails" + suffix) == prefix + "thumbnails" + suffix
    ensures SelectUrl(other) == DefaultUrl
  {
    var s := prefix + "thumbnails" + suffix;
    assert OccursAt(s, "thumbnails", |prefix|) by {
      assert s[|prefix|..|prefix| + 10] == "thumbnails";
    }
  }

  /** `Thumbnails` with a capital letter is not recognised. */
  lemma CapitalisedIsReplaced(url: string)
    requires url == "Thumbnails"
    ensures SelectUrl(url) == DefaultUrl
  {
    assert !OccursAt(url, "thumbnails", 0) by {
      assert url[0] == 'T';
    }
  }
}
