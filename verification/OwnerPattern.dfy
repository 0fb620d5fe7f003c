/**
  Owner names and the LIKE pattern that finds a process's runs
  (app/repositories/monitoring.py fail_interrupted, app/cli.py process_owner).
 */
module OwnerPattern {

  /** `text.replace(from, to)` for a one-character `from`. */
  function Replace(text: string, from: char, to: string): string {
    if text == "" then "" else (if text[0] == from then to else [text[0]]) + Replace(text[1..], from, to)
  }

  /** The three replacements, in the order they are made. */
  function Passes(text: string): string {
    Replace(Replace(Replace(text, '\\', "\\\\"), '%', "\\%"), '_', "\\_")
  }

  function PrefixPattern(prefix: string): string {
    Passes(prefix) + "%"
  }

  /** SQL LIKE with ESCAPE '\': a backslash makes the next character literal, '%'
      stands for any sequence and '_' for any one character. A pattern ending in a
      lone backslash is an error in SQL and matches nothing here. */
  predicate Like(s: string, pattern: string)
    decreases |pattern|, |s|
  {
    if pattern == "" then s == ""
    else if pattern[0] == '\\' then
      |pattern| > 1 && s != "" && s[0] == pattern[1] && Like(s[1..], pattern[2..])
    else if pattern[0] == '%' then
      Like(s, pattern[1..]) || (s != "" && Like(s[1..], pattern))
    else
      s != "" && (pattern[0] == '_' || s[0] == pattern[0]) && Like(s[1..], pattern[1..])
  }

  /** What the three passes do to one character. */
  function EscapedChar(c: char): string {
    if c == '\\' || c == '%' || c == '_' then ['\\', c] else [c]
  }

  function Escaped(prefix: string): string {
    if prefix == "" then "" else EscapedChar(prefix[0]) + Escaped(prefix[1..])
  }

  lemma {:induction false} ReplaceConcat(a: string, b: string, from: char, to: string)
    ensures Replace(a + b, from, to) == Replace(a, from, to) + Replace(b, from, to)
  {
    if a == "" {
      assert a + b == b;
    } else {
      assert (a + b)[1..] == a[1..] + b;
      ReplaceConcat(a[1..], b, from, to);
    }
  }

  lemma PassesConcat(a: string, b: string)
    ensures Passes(a + b) == Passes(a) + Passes(b)
  {
    var a1, b1 := Replace(a, '\\', "\\\\"), Replace(b, '\\', "\\\\");
    ReplaceConcat(a, b, '\\', "\\\\");
    ReplaceConcat(a1, b1, '%', "\\%");
    ReplaceConcat(Replace(a1, '%', "\\%"), Replace(b1, '%', "\\%"), '_', "\\_");
  }

  /** The passes act character by character: escaping the backslash first is what
      keeps a later pass from touching what an earlier one wrote. */
  lemma {:induction false} PassesEscape(text: string)
    ensures Passes(text) == Escaped(text)
  {
    if text != "" {
      assert text == [text[0]] + text[1..];
      PassesConcat([text[0]], text[1..]);
      CharPasses(text[0]);
      PassesEscape(text[1..]);
    }
  }

  lemma CharPasses(c: char)
    ensures Passes([c]) == EscapedChar(c)
  {
    ReplaceOne(c, '\\', "\\\\");
    if c == '\\' {
      ReplaceTwo("\\\\", '%', "\\%");
      ReplaceTwo("\\\\", '_', "\\_");
    } else {
      ReplaceOne(c, '%', "\\%");
      ReplaceOne(c, '_', "\\_");
      ReplaceTwo("\\%", '_', "\\_");
    }
  }

  lemma ReplaceOne(c: char, from: char, to: string)
    ensures Replace([c], from, to) == if c == from then to else [c]
  {
    assert [c][1..] == "" && Replace("", from, to) == "";
    assert to + "" == to;
  }

  lemma ReplaceTwo(t: string, from: char, to: string)
    requires |t| == 2 && t[0] != from && t[1] != from
    ensures Replace(t, from, to) == t
  {
    assert t[1..] == [t[1]];
    ReplaceOne(t[1], from, to);
  }

  lemma {:induction false} AnyTail(s: string)
    ensures Like(s, "%")
  {
    if s == "" {
      assert Like(s, "%"[1..]);
    } else {
      AnyTail(s[1..]);
    }
  }

  /** Unescaped, an underscore is any one character. */
  lemma UnderscoreIsAny(s: string)
    ensures Like(s, "_") <==> |s| == 1
  {
    assert "_"[1..] == "";
    assert s != "" ==> (s[1..] == "" <==> |s| == 1);
  }

  lemma {:induction false} EscapedMatches(prefix: string, s: string)
    ensures Like(s, Escaped(prefix) + "%") <==> prefix <= s
  {
    if prefix == "" {
      assert Escaped(prefix) + "%" == "%";
      AnyTail(s);
    } else {
      var c, tail := prefix[0], prefix[1..];
      var pattern := Escaped(prefix) + "%";
      var rest := Escaped(tail) + "%";
      assert pattern == EscapedChar(c) + rest;
      assert pattern[|EscapedChar(c)|..] == rest;
      assert Like(s, pattern) <==> s != "" && s[0] == c && Like(s[1..], rest);
      if s != "" {
        EscapedMatches(tail, s[1..]);
        assert prefix <= s <==> c == s[0] && tail <= s[1..] by {
          assert prefix == [c] + tail && s == [s[0]] + s[1..];
        }
      }
    }
  }

  /** The pattern finds exactly the names that start with the prefix, whatever
      characters either contains. */
  lemma PatternIsPrefix(prefix: string, s: string)
    ensures Like(s, PrefixPattern(prefix)) <==> prefix <= s
  {
    PassesEscape(prefix);
    EscapedMatches(prefix, s);
  }

  // ---- process owners -----------------------------------------------------

  predicate IsDigits(s: string) {
    s != "" && forall c :: c in s ==> '0' <= c <= '9'
  }

  predicate IsToken(s: string) {
    |s| == 8 && forall c :: c in s ==> '0' <= c <= '9' || 'a' <= c <= 'f'
  }

  function ProcessOwner(host: string, pid: string, token: string): string {
    "cli:" + host + ":" + pid + ":" + token
  }

  /** When one owner name is a proper prefix of another: exactly when all of it fits
      inside the other's host and process id. */
  lemma OwnerPrefixIff(host: string, pid: string, token: string,
                                          host': string, pid': string, token': string)
    requires IsDigits(pid) && IsToken(token) && IsDigits(pid') && IsToken(token')
    ensures ProcessOwner(host, pid, token) < ProcessOwner(host', pid', token')
            <==> "cli:" + host + ":" + pid + ":" + token <= "cli:" + host' + ":" + pid'
  {
    var a, b := ProcessOwner(host, pid, token), ProcessOwner(host', pid', token');
    var cover := "cli:" + host' + ":" + pid';
    assert b == cover + ":" + token';
    assert b[|cover|] == ':';
    TokenHasNoColon(host, pid, token);
    assert a < b ==> |a| <= |cover|;
    if a < b {
      assert a == b[..|a|] == cover[..|a|];
    }
  }

  /** With colon-free host names no owner name is a proper prefix of another, so
      closing the runs of one process never closes another's. */
  lemma OwnersPrefixFree(host: string, pid: string, token: string,
                                            host': string, pid': string, token': string)
    requires IsDigits(pid) && IsToken(token) && IsDigits(pid') && IsToken(token')
    requires ':' !in host'
    ensures ProcessOwner(host, pid, token) <= ProcessOwner(host', pid', token')
            <==> ProcessOwner(host, pid, token) == ProcessOwner(host', pid', token')
  {
    OwnerPrefixIff(host, pid, token, host', pid', token');
    OnlyColon(host', pid');
    var a, cover := ProcessOwner(host, pid, token), "cli:" + host' + ":" + pid';
    var first, second := 4 + |host|, 5 + |host| + |pid|;
    assert a[first] == ':' && a[second] == ':';
    PrefixKeeps(a, cover, first);
    PrefixKeeps(a, cover, second);
  }

  lemma PrefixKeeps(a: string, b: string, i: nat)
    requires i < |a|
    ensures a <= b ==> i < |b| && b[i] == a[i]
  {
  }

  lemma TokenHasNoColon(host: string, pid: string, token: string)
    requires IsToken(token)
    ensures var a := ProcessOwner(host, pid, token);
            forall i :: |a| - 8 <= i < |a| ==> a[i] != ':'
  {
    var a := ProcessOwner(host, pid, token);
    forall i | |a| - 8 <= i < |a| ensures a[i] != ':' {
      assert a[i] == token[i - (|a| - 8)] && a[i] in token;
    }
  }

  lemma OnlyColon(host: string, pid: string)
    requires IsDigits(pid) && ':' !in host
    ensures var s := "cli:" + host + ":" + pid;
            forall i :: 4 <= i < |s| && i != 4 + |host| ==> s[i] != ':'
  {
    var s := "cli:" + host + ":" + pid;
    forall i | 4 <= i < |s| && i != 4 + |host| ensures s[i] != ':' {
      if i < 4 + |host| {
        assert s[i] == host[i - 4] && s[i] in host;
      } else {
        assert s[i] == pid[i - 5 - |host|] && s[i] in pid;
      }
    }
  }

  /** A colon, a process id, a colon and a token stand in `s`, at n and m. */
  predicate OwnerEndsAt(s: string, n: int, m: int) {
    && 0 <= n < m && m + 9 <= |s| && s[n] == ':' && s[m] == ':'
    && IsDigits(s[n + 1..m]) && IsToken(s[m + 1..m + 9])
  }

  lemma Tail(front: string, a: string, b: string)
    ensures front + a <= front + b <==> a <= b
  {
    assert (front + a)[|front|..] == a && (front + b)[|front|..] == b;
    if front + a <= front + b {
      assert b[..|a|] == (front + b)[|front|..|front| + |a|] == (front + a)[|front|..] == a;
    }
    if a <= b {
      assert (front + b)[..|front| + |a|] == front + b[..|a|] == front + a;
    }
  }

  /** A name is a proper prefix of another iff all of it but the "cli:" fits inside the
      other's host and process id. */
  lemma OwnerFits(h: string, p: string, t: string, host: string, pid: string, token: string)
    requires IsDigits(p) && IsToken(t) && IsDigits(pid) && IsToken(token)
    ensures ProcessOwner(h, p, t) < ProcessOwner(host, pid, token) <==> h + ":" + p + ":" + t <= host + ":" + pid
  {
    OwnerPrefixIff(h, p, t, host, pid, token);
    assert "cli:" + h + ":" + p + ":" + t == "cli:" + (h + ":" + p + ":" + t);
    assert "cli:" + host + ":" + pid == "cli:" + (host + ":" + pid);
    Tail("cli:", h + ":" + p + ":" + t, host + ":" + pid);
  }

  lemma PrefixHoldsOwner(h: string, p: string, t: string, s: string)
    requires IsDigits(p) && IsToken(t) && h + ":" + p + ":" + t <= s
    ensures OwnerEndsAt(s, |h|, |h| + 1 + |p|)
  {
    var whole, n, m := h + ":" + p + ":" + t, |h|, |h| + 1 + |p|;
    assert whole[n] == ':' && whole[m] == ':';
    assert whole == s[..m + 9];
    assert s[n + 1..m] == whole[n + 1..m] == p;
    assert s[m + 1..m + 9] == whole[m + 1..m + 9] == t;
  }

  lemma HeldOwnerFits(s: string, n: int, m: int)
    requires OwnerEndsAt(s, n, m)
    ensures s[..n] + ":" + s[n + 1..m] + ":" + s[m + 1..m + 9] <= s
  {
    assert s[..n] + ":" == s[..n + 1];
    assert s[..n + 1] + s[n + 1..m] == s[..m];
    assert s[..m] + ":" == s[..m + 1];
    assert s[..m + 1] + s[m + 1..m + 9] == s[..m + 9];
  }

  /** What a process can tell from its own host name and process id: some owner name is a
      proper prefix of its own iff the two, joined, hold another process id and token. */
  lemma SomeOwnerIsPrefixIff(host: string, pid: string, token: string)
    requires IsDigits(pid) && IsToken(token)
    ensures (exists h, p, t :: IsDigits(p) && IsToken(t) && ProcessOwner(h, p, t) < ProcessOwner(host, pid, token))
            <==> exists n, m :: OwnerEndsAt(host + ":" + pid, n, m)
  {
    var s := host + ":" + pid;
    if h, p, t :| IsDigits(p) && IsToken(t) && ProcessOwner(h, p, t) < ProcessOwner(host, pid, token) {
      OwnerFits(h, p, t, host, pid, token);
      PrefixHoldsOwner(h, p, t, s);
    }
    if n, m :| OwnerEndsAt(s, n, m) {
      HeldOwnerFits(s, n, m);
      OwnerFits(s[..n], s[n + 1..m], s[m + 1..m + 9], host, pid, token);
    }
  }

  /** A colon in the longer name's host breaks it. */
  lemma ColonHostClash()
    ensures ProcessOwner("h", "1", "00000000") < ProcessOwner("h:1:00000000", "2", "11111111")
  {
    var a, b := ProcessOwner("h", "1", "00000000"), ProcessOwner("h:1:00000000", "2", "11111111");
    assert a == "cli:h:1:00000000";
    assert b == "cli:h:1:00000000:2:11111111";
    assert b[..|a|] == a;
  }
}
