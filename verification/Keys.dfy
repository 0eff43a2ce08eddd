/** Hash inputs and dedupe keys of internal/router/router.go. The hash itself is a parameter. */
module Keys {
  import opened Model
  import opened Ordering
  import opened TimeText

  const NUL := '\0'

  predicate Free(s: string, c: char)
  {
    c !in s
  }

  /** Text up to the first separator is determined by the whole. */
  lemma {:induction false} SplitFirst(a: string, b: string, c: string, d: string, sep: char)
    requires Free(a, sep) && Free(c, sep) && a + [sep] + b == c + [sep] + d
    ensures a == c && b == d
  {
    if a == [] || c == [] {
      assert (a + [sep] + b)[0] == (c + [sep] + d)[0];
      assert a == [] && c == [];
      assert (a + [sep] + b)[1..] == b && (c + [sep] + d)[1..] == d;
    } else {
      assert (a + [sep] + b)[0] == a[0] && (c + [sep] + d)[0] == c[0];
      assert (a + [sep] + b)[1..] == a[1..] + [sep] + b;
      assert (c + [sep] + d)[1..] == c[1..] + [sep] + d;
      SplitFirst(a[1..], b, c[1..], d, sep);
      assert a == [a[0]] + a[1..] && c == [c[0]] + c[1..];
    }
  }

  /** Text after the last separator is determined by the whole. */
  lemma {:induction false} SplitLast(a: string, b: string, c: string, d: string, sep: char)
    requires Free(b, sep) && Free(d, sep) && a + [sep] + b == c + [sep] + d
    ensures a == c && b == d
    decreases |b|
  {
    var s, t := a + [sep] + b, c + [sep] + d;
    if b == [] || d == [] {
      assert s[|s| - 1] == t[|t| - 1];
      assert b == [] && d == [];
      assert s[..|s| - 1] == a && t[..|t| - 1] == c;
    } else {
      var n, m := |b| - 1, |d| - 1;
      assert s[|s| - 1] == b[n] && t[|t| - 1] == d[m];
      assert s[..|s| - 1] == a + [sep] + b[..n] && t[..|t| - 1] == c + [sep] + d[..m];
      SplitLast(a, b[..n], c, d[..m], sep);
      assert b == b[..n] + [b[n]] && d == d[..m] + [d[m]];
    }
  }

  /** Each label followed by a NUL. */
  function Terminated(labels: seq<string>): string
  {
    if labels == [] then "" else labels[0] + [NUL] + Terminated(labels[1..])
  }

  ghost predicate NulFree(labels: seq<string>)
  {
    forall i :: 0 <= i < |labels| ==> Free(labels[i], NUL)
  }

  lemma {:induction false} TerminatedInjective(s: seq<string>, t: seq<string>)
    requires NulFree(s) && NulFree(t) && Terminated(s) == Terminated(t)
    ensures s == t
  {
    if s != [] && t != [] {
      SplitFirst(s[0], Terminated(s[1..]), t[0], Terminated(t[1..]), NUL);
      TerminatedInjective(s[1..], t[1..]);
      assert s == [s[0]] + s[1..] && t == [t[0]] + t[1..];
    }
  }

  /** What LabelHash feeds to the hash: the sorted labels, NUL-terminated. */
  function LabelBytes(labels: seq<string>): string
  {
    Terminated(Sorted(TextLe, labels))
  }

  /** The hash input forgets label order, and nothing else about NUL-free labels. */
  lemma LabelBytesIffSameLabels(a: seq<string>, b: seq<string>)
    ensures multiset(a) == multiset(b) ==> LabelBytes(a) == LabelBytes(b)
    ensures NulFree(a) && NulFree(b) && LabelBytes(a) == LabelBytes(b) ==> multiset(a) == multiset(b)
  {
    TextLeOrders();
    SortedIsSorted(TextLe, a);
    SortedIsSorted(TextLe, b);
    if multiset(a) == multiset(b) {
      SortedIsCanonical(TextLe, Sorted(TextLe, a), Sorted(TextLe, b));
    } else if NulFree(a) && NulFree(b) && LabelBytes(a) == LabelBytes(b) {
      SortedNulFree(a);
      SortedNulFree(b);
      TerminatedInjective(Sorted(TextLe, a), Sorted(TextLe, b));
      assert false;
    }
  }

  lemma SortedNulFree(labels: seq<string>)
    requires NulFree(labels)
    ensures NulFree(Sorted(TextLe, labels))
  {
    var s := Sorted(TextLe, labels);
    forall i | 0 <= i < |s| ensures Free(s[i], NUL) {
      MemberOfPermutation(s, labels, s[i]);
    }
  }

  /** Without the terminator condition the input is ambiguous. */
  lemma NulLabelsCollide()
    ensures LabelBytes(["a\0b"]) == LabelBytes(["a", "b"]) && multiset(["a\0b"]) != multiset(["a", "b"])
  {
    assert TextLe("a", "b");
    assert Sorted(TextLe, ["b"]) == ["b"];
    assert ["a", "b"][1..] == ["b"];
    assert Sorted(TextLe, ["a", "b"]) == ["a"] + ["b"];
    assert Sorted(TextLe, ["a\0b"]) == ["a\0b"];
    assert ["a"] + ["b"] == ["a", "b"];
    assert Terminated(["b"]) == "b" + [NUL] + "";
    assert Terminated(["a", "b"]) == "a" + [NUL] + Terminated(["b"]);
    assert "a" + [NUL] + "b" == "a\0b";
    assert Terminated(["a\0b"]) == "a\0b" + [NUL] + "";
    assert |["a\0b"]| == |multiset(["a\0b"])| && |["a", "b"]| == |multiset(["a", "b"])|;
  }

  /** hashScope's input: the namespace and each part, NUL-separated. */
  function ScopeBytes(namespace: string, parts: seq<string>): string
    decreases |parts|
  {
    if parts == [] then namespace else ScopeBytes(namespace, parts[..|parts| - 1]) + [NUL] + parts[|parts| - 1]
  }

  /** Different scopes never share a hash input, as long as their texts carry no NUL. */
  lemma {:induction false} ScopeBytesInjective(a: string, s: seq<string>, b: string, t: seq<string>)
    requires Free(a, NUL) && Free(b, NUL) && NulFree(s) && NulFree(t)
    requires ScopeBytes(a, s) == ScopeBytes(b, t)
    ensures a == b && s == t
    decreases |s| + |t|
  {
    if s != [] && t != [] {
      var n, m := |s| - 1, |t| - 1;
      SplitLast(ScopeBytes(a, s[..n]), s[n], ScopeBytes(b, t[..m]), t[m], NUL);
      ScopeBytesInjective(a, s[..n], b, t[..m]);
      assert s == s[..n] + [s[n]] && t == t[..m] + [t[m]];
    }
  }

  // ---- Dedupe keys ----

  datatype IssueRef = IssueRef(host: string, owner: string, repo: string, number: nat)

  function Repository(issue: IssueRef): string
  {
    issue.host + "/" + issue.owner + "/" + issue.repo
  }

  /** model.IssueKey */
  function IssueKey(issue: IssueRef): string
  {
    Repository(issue) + "#" + Pad(issue.number, 1)
  }

  lemma DigitsAreFree(s: string, c: char)
    requires IsDigits(s) && !('0' <= c <= '9')
    ensures Free(s, c)
  {
  }

  /** An issue key determines its issue; a slash may stand in the host only. */
  lemma IssueKeyInjective(i: IssueRef, j: IssueRef)
    requires Free(i.owner, '/') && Free(i.repo, '/') && Free(j.owner, '/') && Free(j.repo, '/')
    ensures IssueKey(i) == IssueKey(j) <==> i == j
  {
    if IssueKey(i) == IssueKey(j) {
      DigitsAreFree(Pad(i.number, 1), '#');
      DigitsAreFree(Pad(j.number, 1), '#');
      SplitLast(Repository(i), Pad(i.number, 1), Repository(j), Pad(j.number, 1), '#');
      SplitLast(i.host + "/" + i.owner, i.repo, j.host + "/" + j.owner, j.repo, '/');
      SplitLast(i.host, i.owner, j.host, j.owner, '/');
      NumberOfPad(i.number, 1);
      NumberOfPad(j.number, 1);
    }
  }

  /** DedupeKey: issue key, route, label hash and update time, joined by colons. */
  function DedupeKey(issue: IssueRef, routeName: string, labelHash: string, updated: Time): string
  {
    IssueKey(issue) + ":" + routeName + ":" + labelHash + ":" + NanoText(updated)
  }

  const DATE := [Part(4, "-"), Part(2, "-"), Part(2, "T")]
  const TIME_OF_DAY := [Part(2, ":"), Part(2, ":"), Part(2, "")]

  lemma {:induction false} RenderedFree(values: seq<nat>, layout: seq<Part>, c: char)
    requires |values| == |layout| && !('0' <= c <= '9')
    requires forall i :: 0 <= i < |layout| ==> Free(layout[i].suffix, c)
    ensures Free(Render(values, layout), c)
    decreases |values|
  {
    if values != [] {
      DigitsAreFree(Pad(values[0], layout[0].width), c);
      RenderedFree(values[1..], layout[1..], c);
    }
  }

  lemma RenderThree(a: nat, b: nat, c: nat)
    ensures Render([a, b, c], TIME_OF_DAY) == Pad(a, 2) + ":" + (Pad(b, 2) + ":" + (Pad(c, 2) + ""))
  {
    RenderTwo(b, Part(2, ":"), c, Part(2, ""));
    assert [a, b, c][1..] == [b, c] && TIME_OF_DAY[1..] == [Part(2, ":"), Part(2, "")];
  }

  lemma ClockIsDateAndTime()
    ensures CLOCK == DATE + TIME_OF_DAY
  {
  }

  lemma ClockSplits(date: seq<nat>, h: nat, m: nat, s: nat)
    requires |date| == 3
    ensures Render(date + [h, m, s], CLOCK) == Render(date, DATE) + (Pad(h, 2) + ":" + (Pad(m, 2) + ":" + (Pad(s, 2) + "")))
  {
    ClockIsDateAndTime();
    RenderAppend(date, [h, m, s], DATE, TIME_OF_DAY);
    RenderThree(h, m, s);
  }

  lemma FractionFree(n: nat)
    ensures Free(FractionText(n), ':')
  {
    DigitsAreFree(Trimmed(Pad(n, 9)), ':');
  }

  lemma FreeJoins(a: string, b: string, c: char)
    requires Free(a, c) && Free(b, c)
    ensures Free(a + b, c)
  {
  }

  lemma ClockPieces(f: seq<nat>) returns (date: string, h: string, m: string, s: string)
    requires |f| == 6
    ensures Render(f, CLOCK) == date + (h + ":" + (m + ":" + (s + "")))
    ensures Free(date, ':') && Free(h, ':') && Free(m, ':') && Free(s, ':')
  {
    date, h, m, s := Render(f[..3], DATE), Pad(f[3], 2), Pad(f[4], 2), Pad(f[5], 2);
    assert Free(date, ':') by {
      RenderedFree(f[..3], DATE, ':');
    }
    DigitsAreFree(h, ':');
    DigitsAreFree(m, ':');
    DigitsAreFree(s, ':');
    assert Render(f, CLOCK) == date + (h + ":" + (m + ":" + (s + ""))) by {
      assert f == f[..3] + [f[3], f[4], f[5]];
      ClockSplits(f[..3], f[3], f[4], f[5]);
    }
  }

  /** A printed time has two colons. */
  lemma TwoColons(t: Time) returns (hour: string, minute: string, rest: string)
    ensures NanoText(t) == hour + ":" + minute + ":" + rest
    ensures Free(hour, ':') && Free(minute, ':') && Free(rest, ':')
  {
    var date, h, m, s := ClockPieces(Fields(t)[..6]);
    FractionFree(Fields(t)[6]);
    hour, minute, rest := Pieces(date, h, m, s, FractionText(Fields(t)[6]));
  }

  lemma Pieces(date: string, h: string, m: string, s: string, fraction: string)
    returns (hour: string, minute: string, rest: string)
    requires Free(date, ':') && Free(h, ':') && Free(m, ':') && Free(s, ':') && Free(fraction, ':')
    ensures (date + (h + ":" + (m + ":" + (s + "")))) + fraction == hour + ":" + minute + ":" + rest
    ensures Free(hour, ':') && Free(minute, ':') && Free(rest, ':')
  {
    hour, minute, rest := date + h, m, s + fraction;
    FreeJoins(date, h, ':');
    FreeJoins(s, fraction, ':');
    Regrouped(date, h, m, s, fraction);
  }

  lemma Regrouped(a: string, b: string, c: string, d: string, e: string)
    ensures (a + (b + ":" + (c + ":" + (d + "")))) + e == (a + b) + ":" + c + ":" + (d + e)
  {
  }

  /** The printed time can be split off the end of a text. */
  lemma SplitTime(a: string, t: Time, b: string, u: Time)
    requires FourDigitYear(t) && FourDigitYear(u)
    requires a + ":" + NanoText(t) == b + ":" + NanoText(u)
    ensures a == b && t == u
  {
    var h1, m1, r1 := TwoColons(t);
    var h2, m2, r2 := TwoColons(u);
    assert a + ":" + NanoText(t) == (a + ":" + h1 + ":" + m1) + ":" + r1;
    assert b + ":" + NanoText(u) == (b + ":" + h2 + ":" + m2) + ":" + r2;
    SplitLast(a + ":" + h1 + ":" + m1, r1, b + ":" + h2 + ":" + m2, r2, ':');
    SplitLast(a + ":" + h1, m1, b + ":" + h2, m2, ':');
    SplitLast(a, h1, b, h2, ':');
    ParseReadsNanoText(t);
    ParseReadsNanoText(u);
  }

  /** An issue key can be split off the front, as its number ends at the colon. The two issues are of one repository, or no
      repository name has a `#`, as on GitHub. */
  lemma SplitIssue(i: IssueRef, a: string, j: IssueRef, b: string)
    requires Repository(i) == Repository(j) || (Free(Repository(i), '#') && Free(Repository(j), '#'))
    requires IssueKey(i) + ":" + a == IssueKey(j) + ":" + b
    ensures IssueKey(i) == IssueKey(j) && a == b
  {
    var p, q, m, n := Repository(i), Repository(j), Pad(i.number, 1), Pad(j.number, 1);
    assert IssueKey(i) + ":" + a == p + "#" + (m + ":" + a);
    assert IssueKey(j) + ":" + b == q + "#" + (n + ":" + b);
    if p == q {
      SamePrefix(p + "#", m + ":" + a, n + ":" + b);
    } else {
      SplitFirst(p, m + ":" + a, q, n + ":" + b, '#');
    }
    DigitsAreFree(m, ':');
    DigitsAreFree(n, ':');
    SplitFirst(m, a, n, b, ':');
  }

  lemma SamePrefix(p: string, a: string, b: string)
    requires p + a == p + b
    ensures a == b
  {
    assert a == (p + a)[|p|..] && b == (p + b)[|p|..];
  }

  /** Two dedupe keys agree exactly for the same issue, route, label hash and update time. Host and route may contain
      colons; a hash is hexadecimal and has none. */
  lemma DedupeKeyInjective(i: IssueRef, r1: string, h1: string, t1: Time, j: IssueRef, r2: string, h2: string, t2: Time)
    requires Repository(i) == Repository(j) || (Free(Repository(i), '#') && Free(Repository(j), '#'))
    requires Free(h1, ':') && Free(h2, ':') && FourDigitYear(t1) && FourDigitYear(t2)
    ensures DedupeKey(i, r1, h1, t1) == DedupeKey(j, r2, h2, t2)
            <==> IssueKey(i) == IssueKey(j) && r1 == r2 && h1 == h2 && t1 == t2
  {
    if DedupeKey(i, r1, h1, t1) == DedupeKey(j, r2, h2, t2) {
      SplitTime(IssueKey(i) + ":" + r1 + ":" + h1, t1, IssueKey(j) + ":" + r2 + ":" + h2, t2);
      SplitLast(IssueKey(i) + ":" + r1, h1, IssueKey(j) + ":" + r2, h2, ':');
      SplitIssue(i, r1, j, r2);
    }
  }
}
