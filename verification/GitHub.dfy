/** internal/github/github.go and isAbsentLabelError of internal/actions/actions.go: the texts of failed DELETE calls, and
    which of them are taken for an absent label. */
module GitHub {
  import opened TimeText

  // ---- Substrings ----

  predicate OccursAt(s: string, part: string, i: nat)
  {
    i + |part| <= |s| && s[i..i + |part|] == part
  }

  /** strings.Contains */
  predicate Contains(s: string, part: string)
  {
    exists i :: 0 <= i <= |s| && OccursAt(s, part, i)
  }

  lemma ContainsAt(s: string, part: string, i: nat)
    requires i + |part| <= |s| && forall k :: 0 <= k < |part| ==> s[i + k] == part[k]
    ensures Contains(s, part)
  {
    assert s[i..i + |part|] == part;
    assert OccursAt(s, part, i);
  }

  lemma Finds(s: string, part: string) returns (i: nat)
    requires Contains(s, part)
    ensures i + |part| <= |s| && forall k :: 0 <= k < |part| ==> s[i + k] == part[k]
  {
    i :| 0 <= i <= |s| && OccursAt(s, part, i);
    forall k | 0 <= k < |part| ensures s[i + k] == part[k] {
      assert s[i..i + |part|][k] == s[i + k];
    }
  }

  lemma CharacterFound(s: string, part: string, c: char)
    requires Contains(s, part) && c in part
    ensures c in s
  {
    var i := Finds(s, part);
    var k :| 0 <= k < |part| && part[k] == c;
    assert s[i + k] in s;
  }

  lemma LacksCharacter(s: string, part: string, c: char)
    requires c in part && c !in s
    ensures !Contains(s, part)
  {
    if Contains(s, part) {
      CharacterFound(s, part, c);
    }
  }

  lemma ContainsLeft(a: string, b: string, part: string)
    requires Contains(a, part)
    ensures Contains(a + b, part)
  {
    var i := Finds(a, part);
    ContainsAt(a + b, part, i);
  }

  lemma ContainsRight(a: string, b: string, part: string)
    requires Contains(b, part)
    ensures Contains(a + b, part)
  {
    var i := Finds(b, part);
    ContainsAt(a + b, part, |a| + i);
  }

  lemma FoundInParts(a: string, c: char, b: string, part: string)
    requires Contains(a + [c] + b, part)
    ensures Contains(a, part) || Contains(b, part) || c in part
  {
    var s := a + [c] + b;
    var i := Finds(s, part);
    if i + |part| <= |a| {
      ContainsAt(a, part, i);
    } else if i > |a| {
      ContainsAt(b, part, i - |a| - 1);
    } else if i + |part| > |a| {
      assert s[i + (|a| - i)] == part[|a| - i];
    }
  }

  /** A character that a text does not have separates what is searched for it. */
  lemma ContainsSplit(a: string, c: char, b: string, part: string)
    requires c !in part
    ensures Contains(a + [c] + b, part) <==> Contains(a, part) || Contains(b, part)
  {
    if Contains(a + [c] + b, part) {
      FoundInParts(a, c, b, part);
    }
    if Contains(a, part) {
      ContainsLeft(a, [c] + b, part);
      assert a + ([c] + b) == a + [c] + b;
    }
    if Contains(b, part) {
      ContainsRight(a + [c], b, part);
    }
  }

  lemma SpacedWordFound(a: string, b: string, word: string)
    requires Contains(a + " " + b, " " + word)
    ensures Contains(a, " " + word) || Contains(b, " " + word) || word <= b || ' ' in word
  {
    var s, part := a + " " + b, " " + word;
    var i := Finds(s, part);
    if i + |part| <= |a| {
      ContainsAt(a, part, i);
    } else if i > |a| {
      ContainsAt(b, part, i - |a| - 1);
    } else if i == |a| {
      forall k | 0 <= k < |word| ensures b[k] == word[k] {
        assert s[i + (k + 1)] == part[k + 1];
      }
    } else {
      assert s[i + (|a| - i)] == part[|a| - i] == word[|a| - i - 1];
    }
  }

  lemma ContainsPart(s: string, part: string, from: nat, to: nat)
    requires from <= to <= |part| && Contains(s, part)
    ensures Contains(s, part[from..to])
  {
    var i := Finds(s, part);
    ContainsAt(s, part[from..to], i + from);
  }

  // ---- Lower case ----

  function LowerChar(c: char): char
  {
    if 'A' <= c <= 'Z' then c - 'A' + 'a' else c
  }

  /** strings.ToLower, but for characters outside ASCII, none of which is lowered to a letter of "not found". */
  function Lower(s: string): (r: string)
    ensures |r| == |s| && forall i :: 0 <= i < |s| ==> r[i] == LowerChar(s[i])
  {
    seq(|s|, i requires 0 <= i < |s| => LowerChar(s[i]))
  }

  lemma LowerJoins(a: string, b: string)
    ensures Lower(a + b) == Lower(a) + Lower(b)
  {
  }

  /** Digits have no case. */
  lemma LowerKeepsDigits(s: string, digits: string)
    requires IsDigits(digits)
    ensures Contains(Lower(s), digits) <==> Contains(s, digits)
  {
    if Contains(s, digits) {
      var i := Finds(s, digits);
      ContainsAt(Lower(s), digits, i);
    }
    if Contains(Lower(s), digits) {
      var i := Finds(Lower(s), digits);
      ContainsAt(s, digits, i);
    }
  }

  /** isAbsentLabelError */
  predicate TakenForAbsent(text: string)
  {
    Contains(Lower(text), "not found") || Contains(Lower(text), "404")
  }

  // ---- Paths ----

  function Utf8(c: char): seq<nat>
  {
    var n := c as nat;
    if n < 0x80 then [n]
    else if n < 0x800 then [0xC0 + n / 64, 0x80 + n % 64]
    else if n < 0x1_0000 then [0xE0 + n / 4096, 0x80 + n / 64 % 64, 0x80 + n % 64]
    else [0xF0 + n / 262_144, 0x80 + n / 4096 % 64, 0x80 + n / 64 % 64, 0x80 + n % 64]
  }

  predicate Unescaped(c: char)
  {
    'a' <= c <= 'z' || 'A' <= c <= 'Z' || '0' <= c <= '9' || c in "-_.~$&+:=@"
  }

  function HexDigit(d: nat): (c: char)
    requires d < 16
    ensures Unescaped(c)
  {
    if d < 10 then d as char + '0' else (d - 10) as char + 'A'
  }

  /** Every character is one that a path segment may hold. */
  predicate Segment(s: string)
  {
    forall i :: 0 <= i < |s| ==> Unescaped(s[i]) || s[i] == '%'
  }

  function EscapeBytes(bytes: seq<nat>): (s: string)
    ensures Segment(s)
  {
    if bytes == [] then ""
    else
      var b := bytes[0] % 256;
      (if b < 0x80 && Unescaped(b as char) then [b as char] else ['%', HexDigit(b / 16), HexDigit(b % 16)])
      + EscapeBytes(bytes[1..])
  }

  /** url.PathEscape */
  function Escape(text: string): (s: string)
    ensures Segment(s)
  {
    if text == "" then "" else EscapeBytes(Utf8(text[0])) + Escape(text[1..])
  }

  /** A text of characters that need no escaping stands in the path as it is. */
  lemma {:induction false} EscapeKeeps(text: string)
    requires forall i :: 0 <= i < |text| ==> Unescaped(text[i]) && text[i] < 128 as char
    ensures Escape(text) == text
  {
    if text != "" {
      EscapeKeeps(text[1..]);
      var b := text[0] as nat;
      assert Utf8(text[0]) == [b] && [b][1..] == [] && b % 256 == b;
      assert EscapeBytes([b]) == [text[0]] + EscapeBytes([]);
    }
  }

  /** Where the calls go, and the issue they are about. */
  datatype Site = Site(base: string, token: string, owner: string, repo: string, number: nat)

  function Slash(a: string, rest: string): string
  {
    a + "/" + rest
  }

  /** /repos/OWNER/REPO/issues/NUMBER/labels/LABEL */
  function LabelPath(site: Site, name: string): string
  {
    Slash("", Slash("repos", Slash(Escape(site.owner), Slash(Escape(site.repo),
      Slash("issues", Slash(Pad(site.number, 1), Slash("labels", Escape(name))))))))
  }

  // ---- Error texts ----

  /** RedactSecrets */
  function Redact(message: string, token: string): string
    decreases |message|
  {
    if message == "" || token == "" then message
    else if token <= message then "[REDACTED]" + Redact(message[|token|..], token)
    else [message[0]] + Redact(message[1..], token)
  }

  lemma {:induction false} RedactsNothing(message: string, token: string)
    requires token == "" || !Contains(message, token)
    ensures Redact(message, token) == message
    decreases |message|
  {
    if message != "" && token != "" {
      if token <= message {
        ContainsAt(message, token, 0);
      }
      assert message == message[..1] + message[1..];
      if Contains(message[1..], token) {
        ContainsRight(message[..1], message[1..], token);
      }
      RedactsNothing(message[1..], token);
    }
  }

  /** A DELETE call fails by a status that is no success, with what was read of the body, or without any answer. */
  datatype Failure = Refused(code: nat, body: string) | Unanswered(why: string)

  /** pathForError: what comes before the first question mark. */
  function PathForError(path: string): (r: string)
    ensures '?' !in r && r <= path && ('?' !in path ==> r == path)
  {
    if path == "" || path[0] == '?' then "" else [path[0]] + PathForError(path[1..])
  }

  /** GitHub API DELETE PATH failed: status CODE: BODY */
  function RefusedText(path: string, code: string, body: string): string
  {
    "GitHub API DELETE " + path + " failed" + ":" + (" status " + code + ":" + (" " + body))
  }

  /** GitHub API request failed: Delete "ADDRESS": REASON */
  function UnansweredText(address: string, why: string): string
  {
    "GitHub API request failed: Delete " + "\"" + (address + "\"" + ("" + ":" + (" " + why)))
  }

  /** The error text of `do`; the transport's own text repeats the address. */
  function FailureText(site: Site, path: string, f: Failure): string
  {
    match f
    case Refused(code, body) => RefusedText(PathForError(path), Pad(code, 1), Redact(body, site.token))
    case Unanswered(why) => Redact(UnansweredText(site.base + path, why), site.token)
  }

  // ---- Which texts are taken for an absent label ----

  lemma NoNumber(s: string)
    requires '4' !in s
    ensures !Contains(s, "404")
  {
    LacksCharacter(s, "404", '4');
  }

  lemma SlashMentions404(a: string, rest: string)
    ensures Contains(Slash(a, rest), "404") <==> Contains(a, "404") || Contains(rest, "404")
  {
    ContainsSplit(a, '/', rest, "404");
  }

  /** The path of a label mentions 404 exactly when one of its variable parts does, as they stand in it. */
  lemma PathMentions404(site: Site, name: string)
    ensures Contains(LabelPath(site, name), "404") <==>
              Contains(Escape(site.owner), "404") || Contains(Escape(site.repo), "404")
              || Contains(Pad(site.number, 1), "404") || Contains(Escape(name), "404")
  {
    PathSplits(Escape(site.owner), Escape(site.repo), Pad(site.number, 1), Escape(name));
  }

  lemma PathSplits(o: string, r: string, n: string, l: string)
    ensures Contains(Slash("", Slash("repos", Slash(o, Slash(r, Slash("issues", Slash(n, Slash("labels", l))))))), "404")
            <==> Contains(o, "404") || Contains(r, "404") || Contains(n, "404") || Contains(l, "404")
  {
    var labels := Slash("labels", l);
    var issues := Slash("issues", Slash(n, labels));
    SlashMentions404("labels", l);
    SlashMentions404(n, labels);
    SlashMentions404("issues", Slash(n, labels));
    SlashMentions404(r, issues);
    SlashMentions404(o, Slash(r, issues));
    SlashMentions404("repos", Slash(o, Slash(r, issues)));
    SlashMentions404("", Slash("repos", Slash(o, Slash(r, issues))));
    NoNumber("labels");
    NoNumber("issues");
    NoNumber("repos");
    NoNumber("");
  }

  lemma SlashLacks(a: string, rest: string, c: char)
    requires c !in a && c !in rest && c != '/'
    ensures c !in Slash(a, rest)
  {
  }

  lemma SegmentLacks(s: string, c: char)
    requires (Segment(s) || IsDigits(s)) && !Unescaped(c) && c != '%'
    ensures c !in s
  {
  }

  /** A label path holds no character that has to be escaped, whatever the names in it are. */
  lemma PathLacks(site: Site, name: string, c: char)
    requires !Unescaped(c) && c != '%' && c != '/'
    ensures c !in LabelPath(site, name)
  {
    var o, r, n, l := Escape(site.owner), Escape(site.repo), Pad(site.number, 1), Escape(name);
    SegmentLacks(o, c);
    SegmentLacks(r, c);
    SegmentLacks(n, c);
    SegmentLacks(l, c);
    LackedByPath(o, r, n, l, c);
  }

  lemma LackedByPath(o: string, r: string, n: string, l: string, c: char)
    requires c !in o && c !in r && c !in n && c !in l && c != '/' && !Unescaped(c)
    ensures c !in Slash("", Slash("repos", Slash(o, Slash(r, Slash("issues", Slash(n, Slash("labels", l)))))))
  {
    var labels := Slash("labels", l);
    var issues := Slash("issues", Slash(n, labels));
    SlashLacks("labels", l, c);
    SlashLacks(n, labels, c);
    SlashLacks("issues", Slash(n, labels), c);
    SlashLacks(r, issues, c);
    SlashLacks(o, Slash(r, issues), c);
    SlashLacks("repos", Slash(o, Slash(r, issues)), c);
    SlashLacks("", Slash("repos", Slash(o, Slash(r, issues))), c);
  }

  lemma LowerSpace(s: string)
    ensures ' ' in Lower(s) <==> ' ' in s
  {
    if ' ' in s {
      var i :| 0 <= i < |s| && s[i] == ' ';
      assert Lower(s)[i] == ' ';
    }
    if ' ' in Lower(s) {
      var i :| 0 <= i < |s| && Lower(s)[i] == ' ';
      assert s[i] == ' ';
    }
  }

  lemma NoSpacedWord(a: string, b: string, word: string)
    requires ' ' !in word && ' ' !in a && !Contains(b, " " + word) && !(word <= b)
    ensures !Contains(a + " " + b, " " + word)
  {
    LacksCharacter(a, " " + word, ' ');
    if Contains(a + " " + b, " " + word) {
      SpacedWordFound(a, b, word);
    }
  }

  /** The first part of a refusal's text never says "not found", whatever the label is called. */
  lemma HeadNeverNotFound(path: string)
    requires ' ' !in path && path != "" && path[0] == '/'
    ensures !Contains("github api delete " + path + " failed", "not found")
  {
    var d := path + " " + "failed";
    var c := "delete" + " " + d;
    var b := "api" + " " + c;
    LacksCharacter("failed", " " + "fo", ' ');
    assert "failed"[1] != "fo"[1];
    NoSpacedWord(path, "failed", "fo");
    assert d[0] == '/' && c[0] == 'd' && b[0] == 'a';
    NoSpacedWord("delete", d, "fo");
    NoSpacedWord("api", c, "fo");
    NoSpacedWord("github", b, "fo");
    HasInnerWord("github" + " " + b);
    assert "github" + " " + b == "github api delete " + path + " failed";
  }

  lemma HasInnerWord(s: string)
    requires !Contains(s, " " + "fo")
    ensures !Contains(s, "not found")
  {
    assert "not found"[3..6] == " " + "fo";
    if Contains(s, "not found") {
      ContainsPart(s, "not found", 3, 6);
    }
  }

  lemma AfterSpace(s: string, part: string)
    requires part != "" && part[0] != ' '
    ensures Contains(" " + s, part) <==> Contains(s, part)
  {
    if Contains(" " + s, part) {
      var i := Finds(" " + s, part);
      assert (" " + s)[i + 0] == part[0];
      assert i > 0;
      ContainsAt(s, part, i - 1);
    }
    if Contains(s, part) {
      ContainsRight(" ", s, part);
    }
  }

  /** What separates a text also separates it in lower case. */
  lemma LowerSplit(a: string, c: char, b: string, part: string)
    requires c !in part && LowerChar(c) == c
    ensures Contains(Lower(a + [c] + b), part) <==> Contains(Lower(a), part) || Contains(Lower(b), part)
  {
    assert Lower(a + [c] + b) == Lower(a) + [c] + Lower(b);
    ContainsSplit(Lower(a), c, Lower(b), part);
  }

  lemma LowerAfterSpace(s: string, part: string)
    requires part != "" && part[0] != ' '
    ensures Contains(Lower(" " + s), part) <==> Contains(Lower(s), part)
  {
    assert Lower(" " + s) == " " + Lower(s);
    AfterSpace(Lower(s), part);
  }

  /** A refusal in three parts, separated by colons. */
  lemma RefusalParts(path: string, code: string, body: string, part: string)
    requires part != "" && part[0] != ' ' && ':' !in part
    ensures Contains(Lower(RefusedText(path, code, body)), part)
            <==> Contains(Lower("GitHub API DELETE " + path + " failed"), part) || Contains(Lower(" status " + code), part)
                 || Contains(Lower(body), part)
  {
    var rest := " status " + code + ":" + (" " + body);
    LowerSplit("GitHub API DELETE " + path + " failed", ':', rest, part);
    LowerSplit(" status " + code, ':', " " + body, part);
    LowerAfterSpace(body, part);
  }

  lemma StatusMentions404(code: string)
    requires IsDigits(code)
    ensures Contains(Lower(" status " + code), "404") <==> Contains(code, "404")
    ensures !Contains(Lower(" status " + code), "not found")
  {
    assert " status" + [' '] + code == " status " + code;
    LowerKeepsDigits(" status " + code, "404");
    ContainsSplit(" status", ' ', code, "404");
    NoNumber(" status");
    LacksCharacter(Lower(" status " + code), "not found", 'n');
  }

  lemma HeadMentions404(path: string)
    ensures Contains(Lower("GitHub API DELETE " + path + " failed"), "404") <==> Contains(path, "404")
  {
    var tail := path + " " + "failed";
    assert "GitHub API DELETE" + [' '] + tail == "GitHub API DELETE " + path + " failed";
    LowerKeepsDigits("GitHub API DELETE " + path + " failed", "404");
    ContainsSplit(path, ' ', "failed", "404");
    ContainsSplit("GitHub API DELETE", ' ', tail, "404");
    NoNumber("failed");
    NoNumber("GitHub API DELETE");
  }

  lemma LowerHead(path: string)
    ensures Lower("GitHub API DELETE " + path + " failed") == "github api delete " + Lower(path) + " failed"
  {
    LowerJoins("GitHub API DELETE " + path, " failed");
    LowerJoins("GitHub API DELETE ", path);
    assert Lower("GitHub API DELETE ") == "github api delete ";
    assert Lower(" failed") == " failed";
  }

  lemma HeadSaysNotFound(path: string)
    requires ' ' !in path && path != "" && path[0] == '/'
    ensures !Contains(Lower("GitHub API DELETE " + path + " failed"), "not found")
  {
    LowerHead(path);
    LowerSpace(path);
    HeadNeverNotFound(Lower(path));
  }

  lemma RefusedTextTaken(path: string, code: string, body: string)
    requires ' ' !in path && path != "" && path[0] == '/' && IsDigits(code)
    ensures TakenForAbsent(RefusedText(path, code, body)) <==>
              Contains(path, "404") || Contains(code, "404") || TakenForAbsent(body)
  {
    RefusalParts(path, code, body, "404");
    RefusalParts(path, code, body, "not found");
    HeadMentions404(path);
    HeadSaysNotFound(path);
    StatusMentions404(code);
  }

  lemma PathStartsWithSlash(site: Site, name: string)
    ensures LabelPath(site, name) != "" && LabelPath(site, name)[0] == '/'
  {
    StartsWithSlash(Slash("repos", Slash(Escape(site.owner), Slash(Escape(site.repo),
      Slash("issues", Slash(Pad(site.number, 1), Slash("labels", Escape(name))))))));
  }

  lemma StartsWithSlash(rest: string)
    ensures Slash("", rest) != "" && Slash("", rest)[0] == '/'
  {
  }

  /** A refusal is taken for an absent label exactly when its path or status mentions 404, or what is left of its body says
      "not found" or 404. */
  lemma RefusalTakenForAbsent(site: Site, name: string, code: nat, body: string)
    ensures TakenForAbsent(FailureText(site, LabelPath(site, name), Refused(code, body))) <==>
              Contains(LabelPath(site, name), "404") || Contains(Pad(code, 1), "404") || TakenForAbsent(Redact(body, site.token))
  {
    PathLacks(site, name, ' ');
    PathLacks(site, name, '?');
    PathStartsWithSlash(site, name);
    RefusedTextTaken(LabelPath(site, name), Pad(code, 1), Redact(body, site.token));
  }

  lemma Decimal404()
    ensures Pad(404, 1) == "404"
  {
    assert Pad(4, 0) == "4";
    assert Pad(40, 0) == "4" + "0";
  }

  lemma ThreeDigits(code: nat)
    requires 100 <= code < 1000
    ensures |Pad(code, 1)| == 3
  {
    assert |Pad(code / 100, 0)| == 1;
    assert |Pad(code / 10, 0)| == 2;
  }

  lemma OnlyStatus404(code: nat)
    requires 100 <= code < 1000 && Contains(Pad(code, 1), "404")
    ensures code == 404
  {
    ThreeDigits(code);
    var i := Finds(Pad(code, 1), "404");
    assert Pad(code, 1) == "404";
    Decimal404();
    NumberOfPad(code, 1);
    NumberOfPad(404, 1);
  }

  /** Among statuses of three digits only 404 itself mentions 404. */
  lemma StatusIs404(code: nat)
    requires 100 <= code < 1000
    ensures Contains(Pad(code, 1), "404") <==> code == 404
  {
    Decimal404();
    if code == 404 {
      ContainsAt(Pad(code, 1), "404", 0);
    }
    if Contains(Pad(code, 1), "404") {
      OnlyStatus404(code);
    }
  }

  /** A label that is not there is always taken for absent. */
  lemma AbsentIsTaken(site: Site, name: string, body: string)
    ensures TakenForAbsent(FailureText(site, LabelPath(site, name), Refused(404, body)))
  {
    StatusIs404(404);
    RefusalTakenForAbsent(site, name, 404, body);
  }

  lemma ReasonParts(why: string, part: string)
    requires part != "" && part[0] != ' ' && ':' !in part
    ensures Contains(Lower("" + ":" + (" " + why)), part) <==> Contains(Lower(why), part)
  {
    LowerSplit("", ':', " " + why, part);
    LowerAfterSpace(why, part);
    LacksCharacter(Lower(""), part, part[0]);
  }

  lemma UnansweredParts(address: string, why: string, part: string, c: char)
    requires part != "" && part[0] != ' ' && ':' !in part && '"' !in part
    requires c in part && c !in "github api request failed: delete "
    ensures Contains(Lower(UnansweredText(address, why)), part) <==> Contains(Lower(address), part) || Contains(Lower(why), part)
  {
    var reason := "" + ":" + (" " + why);
    LowerSplit("GitHub API request failed: Delete ", '"', address + "\"" + reason, part);
    LowerSplit(address, '"', reason, part);
    ReasonParts(why, part);
    assert Lower("GitHub API request failed: Delete ") == "github api request failed: delete ";
    LacksCharacter("github api request failed: delete ", part, c);
  }

  lemma UnansweredSays404(address: string, why: string)
    ensures Contains(Lower(UnansweredText(address, why)), "404") <==> Contains(Lower(address), "404") || Contains(Lower(why), "404")
  {
    UnansweredParts(address, why, "404", '4');
  }

  lemma UnansweredSaysNotFound(address: string, why: string)
    ensures Contains(Lower(UnansweredText(address, why)), "not found")
            <==> Contains(Lower(address), "not found") || Contains(Lower(why), "not found")
  {
    UnansweredParts(address, why, "not found", 'n');
  }

  lemma UnansweredTextTaken(address: string, why: string)
    ensures TakenForAbsent(UnansweredText(address, why)) <==> TakenForAbsent(address) || TakenForAbsent(why)
  {
    UnansweredSays404(address, why);
    UnansweredSaysNotFound(address, why);
  }

  /** A call without an answer, when there is nothing to redact: its address or the transport's reason says so. */
  lemma UnansweredTakenForAbsent(site: Site, name: string, why: string)
    requires site.token == "" || !Contains(UnansweredText(site.base + LabelPath(site, name), why), site.token)
    ensures TakenForAbsent(FailureText(site, LabelPath(site, name), Unanswered(why)))
            <==> TakenForAbsent(site.base + LabelPath(site, name)) || TakenForAbsent(why)
  {
    var address := site.base + LabelPath(site, name);
    RedactsNothing(UnansweredText(address, why), site.token);
    UnansweredTextTaken(address, why);
  }
}
