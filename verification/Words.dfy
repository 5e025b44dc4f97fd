/** Space-separated argument strings without quotes or backslashes. */
module Words {

  predicate IsSpace(c: char) {
    c == ' ' || c == '\t' || c == '\r' || c == '\n'
  }

  predicate Quoting(c: char) {
    c == '\'' || c == '"' || c == '\\'
  }

  predicate PlainText(s: string) {
    forall c | c in s :: !Quoting(c)
  }

  predicate Word(t: string) {
    t != "" && forall c | c in t :: !IsSpace(c) && !Quoting(c)
  }

  predicate AllWords(ts: seq<string>) {
    forall t | t in ts :: Word(t)
  }

  function WordLength(s: string): (n: nat)
    ensures n <= |s|
    ensures forall i | 0 <= i < n :: !IsSpace(s[i])
    ensures n < |s| ==> IsSpace(s[n])
  {
    if s == "" || IsSpace(s[0]) then 0 else 1 + WordLength(s[1..])
  }

  /** What `shlex.split` makes of plain text. */
  function Split(s: string): seq<string>
    decreases |s|
  {
    if s == "" then []
    else if IsSpace(s[0]) then Split(s[1..])
    else [s[..WordLength(s)]] + Split(s[WordLength(s)..])
  }

  /** `" ".join(ts)` */
  function Join(ts: seq<string>): string {
    if ts == [] then "" else if |ts| == 1 then ts[0] else ts[0] + " " + Join(ts[1..])
  }

  lemma {:induction false} WordLengthOf(t: string, rest: string)
    requires Word(t) && (rest == "" || IsSpace(rest[0]))
    ensures WordLength(t + rest) == |t|
    decreases |t|
  {
    assert (t + rest)[1..] == t[1..] + rest;
    assert t[0] in t;
    if |t| > 1 {
      assert forall c | c in t[1..] :: c in t;
      WordLengthOf(t[1..], rest);
    } else {
      assert t[1..] + rest == rest;
    }
  }

  /** Words survive being joined and split again. */
  lemma {:induction false} SplitJoin(ts: seq<string>)
    requires AllWords(ts)
    ensures Split(Join(ts)) == ts
    decreases |ts|
  {
    if ts != [] {
      var t := ts[0];
      assert t in ts;
      assert t[0] in t;
      if |ts| == 1 {
        WordLengthOf(t, "");
        assert t + "" == t && t[|t|..] == "";
      } else {
        SplitJoin(ts[1..]);
        var rest := " " + Join(ts[1..]);
        var s := Join(ts);
        assert s == t + rest;
        WordLengthOf(t, rest);
        assert s[..|t|] == t && s[|t|..] == rest && rest[1..] == Join(ts[1..]);
        assert Split(rest) == ts[1..];
      }
    }
  }

  lemma {:induction false} JoinIsPlain(ts: seq<string>)
    requires AllWords(ts)
    ensures PlainText(Join(ts))
    decreases |ts|
  {
    assert ts != [] ==> ts[0] in ts;
    if |ts| > 1 {
      JoinIsPlain(ts[1..]);
      var s := Join(ts);
      forall c | c in s ensures !Quoting(c) {
        assert c in ts[0] || c == ' ' || c in Join(ts[1..]);
      }
    }
  }

  lemma {:induction false} SplitIsWords(s: string)
    requires PlainText(s)
    ensures AllWords(Split(s))
    decreases |s|
  {
    if s != "" {
      if IsSpace(s[0]) {
        SplitIsWords(s[1..]);
      } else {
        var n := WordLength(s);
        forall c | c in s[..n] ensures !IsSpace(c) && !Quoting(c) {
          var i :| 0 <= i < n && s[i] == c;
        }
        SplitIsWords(s[n..]);
      }
    }
  }
}
