/**
 * The string helpers of the front end (services/frontend/src/lib/helper.ts):
 * turning a snake_case key into a title and reading a file's extension.
 */
module FrontendHelper {
  import opened Text

  /** `word.charAt(0).toUpperCase() + word.slice(1)`: an empty word stays empty. */
  function CapitalizeWord(word: string): (r: string)
    ensures |r| == |word|
  {
    if word == [] then [] else [UpperChar(word[0])] + word[1..]
  }

  function CapitalizeAll(words: seq<string>): (r: seq<string>)
    ensures |r| == |words|
    ensures forall i :: 0 <= i < |words| ==> r[i] == CapitalizeWord(words[i])
  {
    if words == [] then [] else [CapitalizeWord(words[0])] + CapitalizeAll(words[1..])
  }

  /** `str.split('_').map(capitalize).join(' ')`. */
  function CapitalizeAndRemoveUnderscore(s: string): string
  {
    Join(CapitalizeAll(Split(s, '_')), " ")
  }

  /** What the output holds at position `i` of the input: `_` becomes a space, the first
      character of each piece is upper-cased, and every other character is kept. */
  function CapitalizedAt(s: string, i: nat): char
    requires i < |s|
  {
    if s[i] == '_' then ' '
    else if i == 0 || s[i - 1] == '_' then UpperChar(s[i])
    else s[i]
  }

  /** The pointwise law over any list of `_`-free pieces joined by `_`. */
  lemma {:induction false} JoinCapitalizedPointwise(pieces: seq<string>)
    requires |pieces| >= 1
    requires forall k :: 0 <= k < |pieces| ==> '_' !in pieces[k]
    ensures |Join(CapitalizeAll(pieces), " ")| == |Join(pieces, "_")|
    ensures forall i :: 0 <= i < |Join(pieces, "_")| ==>
              Join(CapitalizeAll(pieces), " ")[i] == CapitalizedAt(Join(pieces, "_"), i)
  {
    var t := Join(pieces, "_");
    var u := Join(CapitalizeAll(pieces), " ");
    var p := pieces[0];
    if |pieces| == 1 {
      assert t == p && u == CapitalizeWord(p);
    } else {
      var rest := pieces[1..];
      JoinCapitalizedPointwise(rest);
      var t' := Join(rest, "_");
      var u' := Join(CapitalizeAll(rest), " ");
      assert CapitalizeAll(pieces)[1..] == CapitalizeAll(rest);
      assert t == p + "_" + t';
      assert u == CapitalizeWord(p) + " " + u';
      forall i | 0 <= i < |t| ensures u[i] == CapitalizedAt(t, i) {
        if i < |p| {
          assert t[i] == p[i] && p[i] != '_';
          if i > 0 { assert t[i - 1] == p[i - 1]; }
        } else if i > |p| {
          var j := i - |p| - 1;
          assert t[i] == t'[j] && u[i] == u'[j];
          if j > 0 { assert t[i - 1] == t'[j - 1]; }
        }
      }
    }
  }

  /** The output has the input's length; `_` becomes a space, each piece's first character is
      upper-cased and every other character is kept in place. */
  lemma CapitalizePointwise(s: string)
    ensures |CapitalizeAndRemoveUnderscore(s)| == |s|
    ensures forall i :: 0 <= i < |s| ==> CapitalizeAndRemoveUnderscore(s)[i] == CapitalizedAt(s, i)
  {
    SplitPiecesFree(s, '_');
    SplitJoin(s, '_');
    JoinCapitalizedPointwise(Split(s, '_'));
  }

  /** The output contains no underscore. */
  lemma NoUnderscore(s: string)
    ensures '_' !in CapitalizeAndRemoveUnderscore(s)
  {
    CapitalizePointwise(s);
    var r := CapitalizeAndRemoveUnderscore(s);
    forall i | 0 <= i < |r| ensures r[i] != '_' {
      assert r[i] == CapitalizedAt(s, i);
    }
  }

  /** The output is the `_`-separated pieces of the input, each capitalised, joined by single
      spaces; there is one piece more than the input has underscores, so consecutive
      underscores give empty words. */
  lemma CapitalizeWords(s: string)
    ensures var words := Split(s, '_');
      && |words| == Occurrences(s, '_') + 1
      && Join(words, "_") == s
      && (forall k :: 0 <= k < |words| ==> '_' !in words[k])
      && CapitalizeAndRemoveUnderscore(s) == Join(CapitalizeAll(words), " ")
  {
    SplitCount(s, '_');
    SplitJoin(s, '_');
    SplitPiecesFree(s, '_');
  }

  /** For ASCII case mapping, capitalising twice is capitalising once. */
  lemma CapitalizeIdempotent(s: string)
    ensures CapitalizeAndRemoveUnderscore(CapitalizeAndRemoveUnderscore(s)) == CapitalizeAndRemoveUnderscore(s)
  {
    var r := CapitalizeAndRemoveUnderscore(s);
    CapitalizePointwise(s);
    CapitalizePointwise(r);
    NoUnderscore(s);
    var r2 := CapitalizeAndRemoveUnderscore(r);
    forall i | 0 <= i < |r| ensures r2[i] == r[i] {
      assert r2[i] == CapitalizedAt(r, i);
      assert r[i] == CapitalizedAt(s, i);
    }
  }

  lemma RandomForestExample()
    ensures CapitalizeAndRemoveUnderscore("random_forest") == "Random Forest"
  {
    RandomForestPieces();
    RandomForestWords();
    RandomForestJoined();
  }

  lemma RandomForestJoined()
    ensures Join(["Random", "Forest"], " ") == "Random Forest"
  {
    assert ["Random", "Forest"][1..] == ["Forest"];
  }

  lemma RandomForestPieces()
    ensures CapitalizeAndRemoveUnderscore("random_forest") == Join(CapitalizeAll(["random", "forest"]), " ")
  {
    SplitWithoutSeparator("forest", '_');
    SplitAtFirstSeparator("random", '_', "forest");
    assert "random" + ['_'] + "forest" == "random_forest";
  }

  lemma RandomForestWords()
    ensures CapitalizeAll(["random", "forest"]) == ["Random", "Forest"]
  {
    var r := CapitalizeAll(["random", "forest"]);
    assert r[0] == CapitalizeWord("random") == "Random";
    assert r[1] == CapitalizeWord("forest") == "Forest";
  }

  lemma ConsecutiveUnderscoresExample()
    ensures CapitalizeAndRemoveUnderscore("a__b") == "A  B"
  {
    SplitWithoutSeparator("b", '_');
    SplitAtFirstSeparator("", '_', "b");
    SplitAtFirstSeparator("a", '_', "_b");
    assert "" + ['_'] + "b" == "_b";
    assert "a" + ['_'] + "_b" == "a__b";
  }

  /** `videoUrl.split('.').pop()?.toLowerCase() || ''`. */
  function GetFormatFile(videoUrl: string): string
  {
    var pieces := Split(videoUrl, '.');
    Lower(pieces[|pieces| - 1])
  }

  /** The result is the lower-cased text after the last `.` (the whole string when there is
      none): it starts at the beginning or just after a `.`, and no `.` follows. */
  lemma {:induction false} FormatFileIsLastExtension(videoUrl: string)
    ensures var k := |videoUrl| - |GetFormatFile(videoUrl)|;
      && 0 <= k <= |videoUrl|
      && (k == 0 || videoUrl[k - 1] == '.')
      && '.' !in videoUrl[k..]
      && GetFormatFile(videoUrl) == Lower(videoUrl[k..])
  {
    var pieces := Split(videoUrl, '.');
    var last := pieces[|pieces| - 1];
    SplitJoin(videoUrl, '.');
    SplitPiecesFree(videoUrl, '.');
    if |pieces| == 1 {
      assert videoUrl == last;
    } else {
      var front := Join(pieces[..|pieces| - 1], ".");
      assert videoUrl == front + "." + last by {
        JoinLast(pieces, ".");
      }
      assert videoUrl[|front| + 1..] == last;
    }
  }

  /** The result never contains a `.`. */
  lemma FormatFileHasNoDot(videoUrl: string)
    ensures '.' !in GetFormatFile(videoUrl)
  {
    FormatFileIsLastExtension(videoUrl);
    var k := |videoUrl| - |GetFormatFile(videoUrl)|;
    var r := GetFormatFile(videoUrl);
    forall i | 0 <= i < |r| ensures r[i] != '.' {
      assert r[i] == LowerChar(videoUrl[k..][i]);
    }
  }

  /** Without a `.` the whole string is returned lower-cased; a trailing `.` gives `''`. */
  lemma FormatFileEdgeCases(videoUrl: string)
    ensures '.' !in videoUrl ==> GetFormatFile(videoUrl) == Lower(videoUrl)
    ensures |videoUrl| > 0 && videoUrl[|videoUrl| - 1] == '.' ==> GetFormatFile(videoUrl) == ""
  {
    if '.' !in videoUrl {
      SplitWithoutSeparator(videoUrl, '.');
    }
    if |videoUrl| > 0 && videoUrl[|videoUrl| - 1] == '.' {
      FormatFileTrailingDot(videoUrl);
    }
  }

  lemma {:induction false} FormatFileTrailingDot(videoUrl: string)
    requires |videoUrl| > 0 && videoUrl[|videoUrl| - 1] == '.'
    ensures GetFormatFile(videoUrl) == ""
  {
    var front := videoUrl[..|videoUrl| - 1];
    assert videoUrl == front + ['.'];
    SplitTrailingSeparator(front, '.');
  }

  lemma WebmExample()
    ensures GetFormatFile("video.WEBM") == "webm"
  {
    SplitWithoutSeparator("WEBM", '.');
    SplitAtFirstSeparator("video", '.', "WEBM");
    assert "video" + ['.'] + "WEBM" == "video.WEBM";
    var l := Lower("WEBM");
    assert l[0] == 'w' && l[1] == 'e' && l[2] == 'b' && l[3] == 'm';
  }
}
