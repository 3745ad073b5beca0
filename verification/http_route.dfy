/** The route test of `http_request`: the URL is cut with
    `split_terminator("/")` and the avatar is served when there are exactly
    three pieces and the second is "avatar"; every other URL gets the fixed
    not-found page. */
module HttpRoute {
  import opened Results
  import opened XidTypes

  const Slash: char := '/'

  /** `str::split` on one separator character: the pieces between
      separators, one more than there are separators. */
  function Split(s: string, sep: char): (r: seq<string>)
    ensures |r| >= 1
    ensures forall i | 0 <= i < |r| :: sep !in r[i]
    decreases |s|
  {
    if s == [] then [""]
    else
      var rest := Split(s[1..], sep);
      if s[0] == sep then [""] + rest
      else [[s[0]] + rest[0]] + rest[1..]
  }

  /** Gluing pieces back with the separator. */
  function Join(parts: seq<string>, sep: char): string
    requires |parts| >= 1
    decreases |parts|
  {
    if |parts| == 1 then parts[0] else parts[0] + [sep] + Join(parts[1..], sep)
  }

  lemma {:induction false} JoinSplit(s: string, sep: char)
    ensures Join(Split(s, sep), sep) == s
    decreases |s|
  {
    if s != [] {
      var rest := Split(s[1..], sep);
      JoinSplit(s[1..], sep);
      if s[0] == sep {
        assert Split(s, sep)[1..] == rest;
        assert s == [s[0]] + s[1..];
      } else {
        var r := Split(s, sep);
        if |rest| == 1 {
          assert s == [s[0]] + rest[0];
        } else {
          assert r[1..] == rest[1..];
          assert Join(rest, sep) == rest[0] + [sep] + Join(rest[1..], sep);
          assert s == [s[0]] + s[1..];
        }
      }
    }
  }

  /** Splitting is the inverse of joining separator-free pieces. */
  lemma {:induction false} SplitJoin(parts: seq<string>, sep: char)
    requires |parts| >= 1
    requires forall i | 0 <= i < |parts| :: sep !in parts[i]
    ensures Split(Join(parts, sep), sep) == parts
    decreases |parts|, |parts[0]|
  {
    var p := parts[0];
    if p == [] {
      if |parts| > 1 {
        var tail := parts[1..];
        SplitJoin(tail, sep);
        var j := Join(parts, sep);
        assert j == [sep] + Join(tail, sep);
        assert j[1..] == Join(tail, sep);
        assert parts == [""] + tail;
      }
    } else {
      var shorter := [p[1..]] + parts[1..];
      assert forall i | 0 <= i < |shorter| :: sep !in shorter[i] by {
        forall i | 0 <= i < |shorter| ensures sep !in shorter[i] {
          if i == 0 {
            assert forall c | c in p[1..] :: c in p;
          } else {
            assert shorter[i] == parts[i];
          }
        }
      }
      SplitJoin(shorter, sep);
      var j := Join(parts, sep);
      if |parts| == 1 {
        assert j == p;
      } else {
        assert shorter[1..] == parts[1..];
        assert j == p + [sep] + Join(parts[1..], sep);
        assert Join(shorter, sep) == p[1..] + [sep] + Join(parts[1..], sep);
      }
      assert j == [p[0]] + Join(shorter, sep);
      assert j[1..] == Join(shorter, sep);
      assert p[0] != sep by { assert p[0] in p; }
      assert [p[0]] + p[1..] == p;
      assert parts == [p] + parts[1..];
    }
  }

  /** The last piece is empty exactly when the string is empty or ends with
      the separator. */
  lemma {:induction false} SplitLastEmpty(s: string, sep: char)
    ensures var p := Split(s, sep); p[|p| - 1] == "" <==> s == [] || s[|s| - 1] == sep
    decreases |s|
  {
    if s != [] {
      SplitLastEmpty(s[1..], sep);
      var rest := Split(s[1..], sep);
      if s[0] != sep && |rest| == 1 {
        assert Split(s, sep) == [[s[0]] + rest[0]];
        if |s| > 1 {
          assert s[1..][|s| - 2] == s[|s| - 1];
        }
      } else if |s| > 1 {
        assert s[1..][|s| - 2] == s[|s| - 1];
      }
    }
  }

  /** `str::split_terminator`: the pieces of `split`, minus the empty piece
      that a trailing separator (or an empty string) leaves at the end. */
  function SplitTerminator(s: string, sep: char): (r: seq<string>)
    ensures forall i | 0 <= i < |r| :: sep !in r[i]
    ensures (s == [] || s[|s| - 1] == sep) ==> r == Split(s, sep)[..|Split(s, sep)| - 1]
    ensures !(s == [] || s[|s| - 1] == sep) ==> r == Split(s, sep)
  {
    SplitLastEmpty(s, sep);
    var p := Split(s, sep);
    if p[|p| - 1] == "" then p[..|p| - 1] else p
  }

  /** The route test. In terms of plain `split`: three pieces with "avatar"
      second and a non-empty last, or four with an empty last (the URL's
      trailing slash). */
  predicate IsAvatarRoute(url: string): (r: bool)
    ensures var p := Split(url, Slash);
      r <==> || (|p| == 3 && p[1] == "avatar" && p[2] != "")
             || (|p| == 4 && p[1] == "avatar" && p[3] == "")
  {
    SplitLastEmpty(url, Slash);
    var path := SplitTerminator(url, Slash);
    |path| == 3 && path[1] == "avatar"
  }

  datatype HttpReply = ServeAvatar(imageData: seq<byte>, imageType: string) | NotFound

  /** `http_request`: the stored avatar on the avatar route, else 404. */
  function HttpRequest(s: State, url: string): (r: HttpReply)
    ensures r.ServeAvatar? <==> IsAvatarRoute(url)
    ensures r.ServeAvatar? ==> r.imageData == s.avatar.imageData && r.imageType == s.avatar.imageType
  {
    if IsAvatarRoute(url) then ServeAvatar(s.avatar.imageData, s.avatar.imageType) else NotFound
  }

  /** Every URL the route accepts has the shape `a/avatar/b`, or `a/avatar/b/`,
      with no slash in `a` or `b` (and `b` non-empty in the first form). */
  lemma AvatarRouteShape(url: string)
    requires IsAvatarRoute(url)
    ensures var p := Split(url, Slash);
      && Slash !in p[0] && Slash !in p[2]
      && (|p| == 3 ==> p[2] != "" && url == p[0] + "/avatar/" + p[2])
      && (|p| == 4 ==> url == p[0] + "/avatar/" + p[2] + "/")
      && (|p| == 3 || |p| == 4)
  {
    var p := Split(url, Slash);
    JoinSplit(url, Slash);
    assert p[1] == "avatar";
    if p[|p| - 1] == "" {
      assert |p| == 4 && p[3] == "";
      JoinThree(p[1..], Slash);
      assert p[1..][1..] == p[2..];
      assert Join(p[2..], Slash) == p[2] + [Slash] by {
        assert p[2..][1..] == p[3..];
      }
      RouteGlue(url, p[0], p[2] + [Slash]);
      assert p[0] + "/avatar/" + (p[2] + [Slash]) == p[0] + "/avatar/" + p[2] + "/";
    } else {
      assert |p| == 3;
      JoinThree(p[1..], Slash);
      assert p[1..][1..] == p[2..];
      assert Join(p[2..], Slash) == p[2];
      RouteGlue(url, p[0], p[2]);
    }
  }

  /** One unfolding of `Join` on at least two pieces. */
  lemma JoinThree(parts: seq<string>, sep: char)
    requires |parts| >= 2
    ensures Join(parts, sep) == parts[0] + [sep] + Join(parts[1..], sep)
  {
  }

  /** `a + "/" + ("avatar" + "/" + rest)` is `a + "/avatar/" + rest`. */
  lemma RouteGlue(url: string, a: string, rest: string)
    requires url == a + [Slash] + ("avatar" + [Slash] + rest)
    ensures url == a + "/avatar/" + rest
  {
    assert "/avatar/" == [Slash] + "avatar" + [Slash];
  }

  /** Conversely, every URL of that shape is served the avatar. */
  lemma AvatarRouteAccepts(a: string, b: string, trailing: bool)
    requires Slash !in a && Slash !in b
    requires trailing || b != ""
    ensures IsAvatarRoute(a + "/avatar/" + b + (if trailing then "/" else ""))
  {
    var url := a + "/avatar/" + b + (if trailing then "/" else "");
    var parts := if trailing then [a, "avatar", b, ""] else [a, "avatar", b];
    assert forall i | 0 <= i < |parts| :: Slash !in parts[i];
    if trailing {
      assert Join(parts[3..], Slash) == "";
      assert Join(parts[2..], Slash) == b + [Slash];
      assert Join(parts, Slash) == url;
    } else {
      assert Join(parts[2..], Slash) == b;
      assert Join(parts[1..], Slash) == "avatar" + [Slash] + b;
      assert "/avatar/" == [Slash] + "avatar" + [Slash];
      assert url == a + "/avatar/" + b;
      assert Join(parts, Slash) == url;
    }
    SplitJoin(parts, Slash);
  }

  /** The not-found side: a trailing slash right after "avatar", or a
      deeper path, falls outside the route. */
  lemma AvatarRouteRejects(a: string, b: string, c: string)
    requires Slash !in a && Slash !in b && Slash !in c && c != ""
    ensures !IsAvatarRoute(a + "/avatar/")
    ensures !IsAvatarRoute(a + "/avatar/" + b + "/" + c)
  {
    var short := [a, "avatar", ""];
    assert Join(short[2..], Slash) == "";
    assert Join(short[1..], Slash) == "avatar" + [Slash];
    assert "/avatar/" == [Slash] + "avatar" + [Slash];
    assert Join(short, Slash) == a + "/avatar/";
    SplitJoin(short, Slash);
    var deep := [a, "avatar", b, c];
    assert Join(deep[3..], Slash) == c;
    assert Join(deep[2..], Slash) == b + [Slash] + c;
    assert Join(deep, Slash) == a + "/avatar/" + b + "/" + c;
    SplitJoin(deep, Slash);
  }
}
