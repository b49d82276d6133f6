/**
 * The allow-list setting: `ALLOWED_IPS`, a comma-separated string, read once
 * at start-up and split with JavaScript's `String.prototype.split(',')`.
 */
module AllowList {
  import opened Wrappers

  const SEPARATOR: char := ','

  /** JavaScript's `s.split(sep)` for a one-character separator: the pieces between separators, untrimmed. */
  function Split(s: string, sep: char): (pieces: seq<string>)
    ensures |pieces| >= 1
    ensures forall i :: 0 <= i < |pieces| ==> sep !in pieces[i]
    decreases |s|
  {
    if |s| == 0 then [""]
    else
      var rest := Split(s[1..], sep);
      if s[0] == sep then [""] + rest
      else [[s[0]] + rest[0]] + rest[1..]
  }

  /** The pieces glued back together with one separator between neighbours. */
  function Join(pieces: seq<string>, sep: char): string
    decreases |pieces|
  {
    if |pieces| == 0 then ""
    else if |pieces| == 1 then pieces[0]
    else pieces[0] + [sep] + Join(pieces[1..], sep)
  }

  /** Splitting loses nothing: the separators were the only thing taken out. */
  lemma {:induction false} JoinSplit(s: string, sep: char)
    ensures Join(Split(s, sep), sep) == s
    decreases |s|
  {
    if |s| > 0 {
      var rest := Split(s[1..], sep);
      JoinSplit(s[1..], sep);
      if s[0] == sep {
        assert Split(s, sep) == [""] + rest;
        assert s == [sep] + s[1..];
      } else {
        var pieces := Split(s, sep);
        assert pieces[1..] == rest[1..];
        if |rest| == 1 {
          assert s == [s[0]] + rest[0];
        } else {
          assert rest[1..] != [] && Join(rest, sep) == rest[0] + [sep] + Join(rest[1..], sep);
          assert s == [s[0]] + s[1..];
        }
      }
    }
  }

  lemma JoinEmptyFirst(rest: seq<string>, sep: char)
    requires |rest| >= 1
    ensures Join([""] + rest, sep) == [sep] + Join(rest, sep)
  {
    assert ([""] + rest)[1..] == rest;
  }

  lemma JoinCharFirst(c: char, q: string, rest: seq<string>, sep: char)
    ensures Join([[c] + q] + rest, sep) == [c] + Join([q] + rest, sep)
  {
    if |rest| > 0 {
      assert ([[c] + q] + rest)[1..] == rest;
      assert ([q] + rest)[1..] == rest;
    }
  }

  /** Splitting is the only way to cut a string into separator-free pieces. */
  lemma {:induction false} SplitJoin(pieces: seq<string>, sep: char)
    requires |pieces| >= 1
    requires forall i :: 0 <= i < |pieces| ==> sep !in pieces[i]
    ensures Split(Join(pieces, sep), sep) == pieces
    decreases |pieces|, |pieces[0]|
  {
    var p := pieces[0];
    if |pieces| == 1 && |p| == 0 {
      assert pieces == [""];
    } else if |p| == 0 {
      var tail := pieces[1..];
      assert pieces == [""] + tail;
      assert forall i :: 0 <= i < |tail| ==> sep !in tail[i] by {
        forall i | 0 <= i < |tail| ensures sep !in tail[i] { assert tail[i] == pieces[i + 1]; }
      }
      SplitJoin(tail, sep);
      JoinEmptyFirst(tail, sep);
      var s := Join(pieces, sep);
      assert s[0] == sep && s[1..] == Join(tail, sep);
    } else {
      var c, q, rest := p[0], p[1..], pieces[1..];
      assert p == [c] + q;
      assert pieces == [[c] + q] + rest;
      var shorter := [q] + rest;
      assert forall i :: 0 <= i < |shorter| ==> sep !in shorter[i] by {
        forall i | 0 <= i < |shorter| ensures sep !in shorter[i] {
          if i == 0 { assert sep !in p; } else { assert shorter[i] == pieces[i]; }
        }
      }
      SplitJoin(shorter, sep);
      JoinCharFirst(c, q, rest, sep);
      var s := Join(pieces, sep);
      assert s[0] == c && s[1..] == Join(shorter, sep);
      assert shorter[1..] == rest;
    }
  }

  /**
   * `process.env.ALLOWED_IPS ? process.env.ALLOWED_IPS.split(',') : []`:
   * unset or empty gives the empty list (admit everyone); anything else
   * gives exactly its comma-separated pieces, in order and untrimmed.
   */
  function AllowedIps(setting: Option<string>): (list: seq<string>)
    ensures list == [] <==> setting.None? || setting.value == ""
    ensures setting.Some? && setting.value != "" ==>
      Join(list, SEPARATOR) == setting.value &&
      forall i :: 0 <= i < |list| ==> SEPARATOR !in list[i]
  {
    if setting.Some? && setting.value != "" then
      JoinSplit(setting.value, SEPARATOR);
      Split(setting.value, SEPARATOR)
    else []
  }
}
