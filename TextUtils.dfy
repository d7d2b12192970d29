/**
 * The text helpers of the research agent (src/utils.py): `clean_text`,
 * `_safe_filename`, `ensure_pdf_url` and `clean_json_block`. Each regular
 * expression substitution is written out as the left-to-right rewrite that
 * `re.sub` performs for that pattern.
 */
module TextUtils {
  import opened Strings

  // ----- clean_text -----

  /** No two adjacent characters of `s` are both `c`. */
  predicate NoDoubled(s: string, c: char) {
    forall i :: 0 <= i < |s| - 1 ==> !(s[i] == c && s[i + 1] == c)
  }

  /** `s` has no run of three or more line feeds. */
  predicate NoTripleNewline(s: string) {
    forall i :: 0 <= i < |s| - 2 ==> !(s[i] == '\n' && s[i + 1] == '\n' && s[i + 2] == '\n')
  }

  lemma SliceKeepsShape(s: string, a: int, b: int)
    requires 0 <= a <= b <= |s|
    ensures NoDoubled(s, ' ') ==> NoDoubled(s[a..b], ' ')
    ensures NoTripleNewline(s) ==> NoTripleNewline(s[a..b])
  {
    var r := s[a..b];
    assert forall i :: 0 <= i < |r| ==> r[i] == s[a + i];
  }

  lemma ConsKeepsShape(c: char, rest: string)
    ensures NoDoubled(rest, ' ') && (rest == [] || !(c == ' ' && rest[0] == ' ')) ==> NoDoubled([c] + rest, ' ')
    ensures NoTripleNewline(rest) && c != '\n' ==> NoTripleNewline([c] + rest)
  {
    var r := [c] + rest;
    assert forall i :: 1 <= i < |r| ==> r[i] == rest[i - 1];
  }

  /** A run of one or two line feeds before text that does not start with one */
  lemma BreakKeepsShape(run: string, rest: string)
    requires 1 <= |run| <= 2 && forall i :: 0 <= i < |run| ==> run[i] == '\n'
    requires NoTripleNewline(rest) && (rest == [] || rest[0] != '\n')
    ensures NoTripleNewline(run + rest)
    ensures NoDoubled(rest, ' ') ==> NoDoubled(run + rest, ' ')
  {
    var r := run + rest;
    assert forall i :: |run| <= i < |r| ==> r[i] == rest[i - |run|];
  }

  /** `re.sub(r"-\n", "", s)`: a hyphen at a line end joins the two halves of the word. */
  function JoinHyphenatedBreaks(s: string): string {
    ReplaceAll(s, "-\n", "")
  }

  /** `re.sub(r"\r\n|\r", "\n", s)` */
  function NormalizeNewlines(s: string): (r: string)
    ensures forall c :: c in r ==> c != '\r' && (c == '\n' || c in s)
    decreases |s|
  {
    if s == [] then []
    else if s[0] == '\r' then
      if |s| > 1 && s[1] == '\n' then "\n" + NormalizeNewlines(s[2..])
      else "\n" + NormalizeNewlines(s[1..])
    else [s[0]] + NormalizeNewlines(s[1..])
  }

  predicate IsBlank(c: char) {
    c == ' ' || c == '\t'
  }

  /** `re.sub(r"[ \t]+", " ", s)`: every maximal run of blanks becomes one space. */
  function CollapseBlanks(s: string): (r: string)
    ensures forall c :: c in r ==> c != '\t' && (c == ' ' || c in s)
    ensures NoDoubled(r, ' ')
    ensures r == [] <==> s == []
    ensures r != [] ==> r[0] == if IsBlank(s[0]) then ' ' else s[0]
    decreases |s|
  {
    if s == [] then []
    else if IsBlank(s[0]) then
      var rest := LStripBy(s, IsBlank);
      assert rest != s;
      var r := CollapseBlanks(rest);
      ConsKeepsShape(' ', r);
      " " + r
    else
      var r := CollapseBlanks(s[1..]);
      ConsKeepsShape(s[0], r);
      [s[0]] + r
  }

  /** The number of line feeds `s` starts with */
  function NewlineRun(s: string): (k: nat)
    ensures k <= |s| && forall i :: 0 <= i < k ==> s[i] == '\n'
    ensures k < |s| ==> s[k] != '\n'
  {
    if s != [] && s[0] == '\n' then 1 + NewlineRun(s[1..]) else 0
  }

  /** `re.sub(r"\n{3,}", "\n\n", s)`: a run of three or more line feeds becomes two. */
  function SqueezeNewlines(s: string): (r: string)
    ensures forall c :: c in r ==> c in s
    ensures r == [] <==> s == []
    ensures r != [] ==> r[0] == s[0]
    decreases |s|
  {
    if s == [] then []
    else if s[0] == '\n' then
      var k := NewlineRun(s);
      var run := if k >= 3 then "\n\n" else s[..k];
      var r := SqueezeNewlines(s[k..]);
      assert forall c :: c in s[k..] ==> c in s;
      run + r
    else
      [s[0]] + SqueezeNewlines(s[1..])
  }

  /** Squeezing leaves no run of three line feeds and makes no two spaces adjacent. */
  lemma {:induction false} SqueezeNewlinesShape(s: string)
    ensures NoTripleNewline(SqueezeNewlines(s))
    ensures NoDoubled(s, ' ') ==> NoDoubled(SqueezeNewlines(s), ' ')
    decreases |s|
  {
    if s == [] {
    } else if s[0] == '\n' {
      var k := NewlineRun(s);
      var run := if k >= 3 then "\n\n" else s[..k];
      SliceKeepsShape(s, k, |s|);
      SqueezeNewlinesShape(s[k..]);
      BreakKeepsShape(run, SqueezeNewlines(s[k..]));
    } else {
      SliceKeepsShape(s, 1, |s|);
      SqueezeNewlinesShape(s[1..]);
      ConsKeepsShape(s[0], SqueezeNewlines(s[1..]));
    }
  }

  /** The properties `clean_text` promises survive the final `strip()`. */
  lemma StripKeepsShape(d: string)
    requires '\r' !in d && '\t' !in d
    requires NoDoubled(d, ' ') && NoTripleNewline(d)
    ensures var r := Strip(d);
      && '\r' !in r && '\t' !in r
      && NoDoubled(r, ' ') && NoTripleNewline(r)
      && (r != [] ==> !IsSpace(r[0]) && !IsSpace(r[|r| - 1]))
  {
    var a, b := StripBySlice(d, IsSpace);
    var r := d[a..b];
    assert Strip(d) == r;
    SliceKeepsShape(d, a, b);
    SliceKeepsChars(d, a, b, '\r');
    SliceKeepsChars(d, a, b, '\t');
  }

  lemma SliceKeepsChars(s: string, a: int, b: int, c: char)
    requires 0 <= a <= b <= |s| && c !in s
    ensures c !in s[a..b]
  {
  }

  /**
   * `clean_text(s)`: no carriage return, no tab, no two spaces in a row,
   * no run of three line feeds, and no whitespace at either end.
   */
  function CleanText(s: string): (r: string)
    ensures '\r' !in r && '\t' !in r
    ensures NoDoubled(r, ' ')
    ensures NoTripleNewline(r)
    ensures r != [] ==> !IsSpace(r[0]) && !IsSpace(r[|r| - 1])
  {
    var joined := JoinHyphenatedBreaks(s);
    var unix := NormalizeNewlines(joined);
    var spaced := CollapseBlanks(unix);
    var squeezed := SqueezeNewlines(spaced);
    SqueezeNewlinesShape(spaced);
    StripKeepsShape(squeezed);
    Strip(squeezed)
  }

  /** `s` is made of ASCII letters only. */
  predicate IsWord(s: string) {
    forall i :: 0 <= i < |s| ==> IsAsciiLetter(s[i])
  }

  /** A word broken by a hyphen at a line end is joined again ("transfor-\nmers"). */
  lemma CleanTextJoinsHyphenation(a: string, b: string)
    requires IsWord(a) && IsWord(b)
    ensures CleanText(a + "-\n" + b) == a + b
  {
    var w := a + b;
    assert JoinHyphenatedBreaks(a + "-\n" + b) == w by {
      ReplaceOnce(a, b, "-\n", "");
      assert a + "" + b == w;
    }
    assert NormalizeNewlines(w) == w by {
      PlainPrefixNormalizes(w, "");
      assert w + "" == w;
    }
    assert Strip(SqueezeNewlines(CollapseBlanks(w))) == w by {
      WordsArePlain(a, b);
      LaterStepsKeep(w);
    }
  }

  /** Two words put together have no blank, no line feed and no space at either end. */
  lemma WordsArePlain(a: string, b: string)
    requires IsWord(a) && IsWord(b)
    ensures var w := a + b;
      && (forall i :: 0 <= i < |w| ==> !IsBlank(w[i]) && w[i] != '\n')
      && NoDoubled(w, '\n')
      && (w != [] ==> !IsSpace(w[0]) && !IsSpace(w[|w| - 1]))
  {
    var w := a + b;
    assert forall i :: 0 <= i < |w| ==> IsAsciiLetter(w[i]) by {
      forall i | 0 <= i < |w| ensures IsAsciiLetter(w[i]) {
        if i < |a| { assert w[i] == a[i]; } else { assert w[i] == b[i - |a|]; }
      }
    }
  }

  /**
   * The hyphen join runs before line endings are normalised, so a hyphen
   * before a Windows line ending survives one cleaning and is joined by a
   * second: `clean_text` is not idempotent.
   */
  lemma CleanTextKeepsHyphenBeforeCrLf(a: string, b: string)
    requires IsWord(a) && IsWord(b) && b != []
    ensures CleanText(a + "-\r\n" + b) == a + "-\n" + b
    ensures CleanText(CleanText(a + "-\r\n" + b)) == a + b
  {
    CrLfNotJoined(a, b);
    CrLfNormalized(a, b);
    HyphenLineIsSettled(a, b);
    LaterStepsKeep(a + "-\n" + b);
    CleanTextJoinsHyphenation(a, b);
  }

  lemma CrLfNotJoined(a: string, b: string)
    requires IsWord(a) && IsWord(b)
    ensures JoinHyphenatedBreaks(a + "-\r\n" + b) == a + "-\r\n" + b
  {
    var t := "-\r\n" + b;
    assert a + "-\r\n" + b == a + t;
    ReplacePrefixFree(a, t, "-\n", "");
    assert !("-\n" <= t) by {
      assert t[1] == '\r';
    }
    assert t[1..] == "\r\n" + b;
    ReplacePrefixFree("\r\n" + b, "", "-\n", "");
    assert "\r\n" + b + "" == "\r\n" + b;
    assert t == [t[0]] + t[1..];
  }

  lemma CrLfNormalized(a: string, b: string)
    requires IsWord(a) && IsWord(b)
    ensures NormalizeNewlines(a + "-\r\n" + b) == a + "-\n" + b
  {
    var t := "\r\n" + b;
    assert a + "-\r\n" + b == (a + "-") + t;
    PlainPrefixNormalizes(a + "-", t);
    assert t[2..] == b;
    assert NormalizeNewlines(t) == "\n" + NormalizeNewlines(b);
    PlainPrefixNormalizes(b, "");
    assert b + "" == b;
  }

  lemma HyphenLineIsSettled(a: string, b: string)
    requires IsWord(a) && IsWord(b) && b != []
    ensures var u := a + "-\n" + b;
      && (forall i :: 0 <= i < |u| ==> !IsBlank(u[i]))
      && NoDoubled(u, '\n')
      && !IsSpace(u[0]) && !IsSpace(u[|u| - 1])
  {
    var u := a + "-\n" + b;
    assert forall i :: 0 <= i < |u| ==> u[i] == '-' || u[i] == '\n' || IsAsciiLetter(u[i]);
    forall i | 0 <= i < |u| - 1 && u[i] == '\n' ensures u[i + 1] != '\n' {
      assert i == |a| + 1;
    }
  }

  /** One occurrence of `pat` with none of its first character around it is replaced. */
  lemma ReplaceOnce(a: string, c: string, pat: string, rep: string)
    requires pat != [] && pat[0] !in a && pat[0] !in c
    ensures ReplaceAll(a + pat + c, pat, rep) == a + rep + c
  {
    assert a + pat + c == a + (pat + c);
    ReplacePrefixFree(a, pat + c, pat, rep);
    assert (pat + c)[|pat|..] == c;
    ReplacePrefixFree(c, [], pat, rep);
    assert c + [] == c;
  }

  /** A text that does not contain the first character of `sub` does not contain `sub`. */
  lemma {:induction false} MissingFirstChar(s: string, sub: string)
    requires sub != [] && sub[0] !in s
    ensures !Contains(s, sub)
  {
    if s != [] {
      assert s[0] != sub[0];
      MissingFirstChar(s[1..], sub);
    }
  }

  /** An occurrence in `a + b` that cannot start inside `a` lies in `b`. */
  lemma {:induction false} PrefixWithoutFirstChar(a: string, b: string, sub: string)
    requires sub != [] && sub[0] !in a
    ensures Contains(a + b, sub) <==> Contains(b, sub)
  {
    if a == [] {
      assert a + b == b;
    } else {
      assert (a + b)[0] == a[0] && (a + b)[1..] == a[1..] + b;
      PrefixWithoutFirstChar(a[1..], b, sub);
    }
  }

  /** Collapsing, squeezing and stripping leave alone a text that has nothing for them to do. */
  lemma LaterStepsKeep(s: string)
    requires forall i :: 0 <= i < |s| ==> !IsBlank(s[i])
    requires NoDoubled(s, '\n')
    requires s != [] ==> !IsSpace(s[0]) && !IsSpace(s[|s| - 1])
    ensures Strip(SqueezeNewlines(CollapseBlanks(s))) == s
  {
    NoBlanksCollapse(s);
    NoRunsSqueeze(s);
    StripIdentity(s, IsSpace);
  }

  /** `re.sub` leaves a text alone when the pattern cannot start in a prefix. */
  lemma {:induction false} ReplacePrefixFree(a: string, b: string, pat: string, rep: string)
    requires pat != [] && forall i :: 0 <= i < |a| ==> a[i] != pat[0]
    ensures ReplaceAll(a + b, pat, rep) == a + ReplaceAll(b, pat, rep)
  {
    if a != [] {
      var s := a + b;
      assert s[0] == a[0] && s[1..] == a[1..] + b;
      assert !(pat <= s) by {
        assert pat[0] != s[0];
      }
      assert ReplaceAll(s, pat, rep) == [a[0]] + ReplaceAll(a[1..] + b, pat, rep);
      ReplacePrefixFree(a[1..], b, pat, rep);
      assert a == [a[0]] + a[1..];
    } else {
      assert a + b == b;
    }
  }

  lemma {:induction false} PlainPrefixNormalizes(a: string, b: string)
    requires forall i :: 0 <= i < |a| ==> a[i] != '\r'
    ensures NormalizeNewlines(a + b) == a + NormalizeNewlines(b)
  {
    if a != [] {
      var s := a + b;
      assert s[0] == a[0] && s[1..] == a[1..] + b;
      assert NormalizeNewlines(s) == [a[0]] + NormalizeNewlines(a[1..] + b);
      PlainPrefixNormalizes(a[1..], b);
      assert a == [a[0]] + a[1..];
    } else {
      assert a + b == b;
    }
  }

  /**
   * A text with no carriage return, no blank run other than single
   * spaces between words, no run of line feeds and no whitespace at
   * either end is its own clean form (once hyphen breaks are joined).
   */
  lemma {:induction false} TextWithoutSpecialsIsClean(s: string)
    requires forall i :: 0 <= i < |s| ==> s[i] != '\r' && s[i] != '\t' && s[i] != ' '
    requires forall i :: 0 <= i < |s| ==> s[i] == '\n' || !IsSpace(s[i])
    requires NoDoubled(s, '\n')
    requires s != [] ==> s[0] != '\n' && s[|s| - 1] != '\n'
    requires !Contains(s, "-\n")
    ensures CleanText(s) == s
  {
    ReplaceAbsent(s, "-\n", "");
    assert JoinHyphenatedBreaks(s) == s;
    PlainPrefixNormalizes(s, "");
    assert s + "" == s;
    LaterStepsKeep(s);
  }

  lemma {:induction false} NoBlanksCollapse(s: string)
    requires forall i :: 0 <= i < |s| ==> !IsBlank(s[i])
    ensures CollapseBlanks(s) == s
  {
    if s != [] {
      NoBlanksCollapse(s[1..]);
    }
  }

  lemma {:induction false} NoRunsSqueeze(s: string)
    requires NoDoubled(s, '\n')
    ensures SqueezeNewlines(s) == s
  {
    if s != [] {
      NoRunsSqueeze(s[1..]);
      if s[0] == '\n' {
        assert NewlineRun(s) == 1;
      }
    }
  }

  /** Stripping a text that neither starts nor ends with a dropped character changes nothing. */
  lemma StripIdentity(s: string, drop: char -> bool)
    requires s != [] ==> !drop(s[0]) && !drop(s[|s| - 1])
    ensures StripBy(s, drop) == s
  {
  }

  // ----- _safe_filename -----

  /** The characters of `[A-Za-z0-9._-]` */
  predicate IsFilenameChar(c: char) {
    ('A' <= c <= 'Z') || ('a' <= c <= 'z') || ('0' <= c <= '9') || c == '.' || c == '_' || c == '-'
  }

  predicate IsUnsafe(c: char) {
    !IsFilenameChar(c)
  }

  /** `re.sub(r"[^A-Za-z0-9._-]+", "_", name)`: every maximal run of other characters becomes `_`. */
  function ReplaceUnsafeRuns(s: string): (r: string)
    ensures forall i :: 0 <= i < |r| ==> IsFilenameChar(r[i])
    decreases |s|
  {
    if s == [] then []
    else if IsUnsafe(s[0]) then
      var rest := LStripBy(s, IsUnsafe);
      assert rest != s;
      "_" + ReplaceUnsafeRuns(rest)
    else [s[0]] + ReplaceUnsafeRuns(s[1..])
  }

  /** A name made only of allowed characters is left as it is. */
  lemma {:induction false} SafeNameUnchanged(s: string)
    requires forall i :: 0 <= i < |s| ==> IsFilenameChar(s[i])
    ensures ReplaceUnsafeRuns(s) == s
  {
    if s != [] {
      SafeNameUnchanged(s[1..]);
    }
  }

  /** `name.lower().endswith(".pdf")` */
  predicate HasPdfExtension(name: string) {
    EndsWith(AsciiLower(name), ".pdf")
  }

  lemma AsciiLowerAppend(a: string, b: string)
    ensures AsciiLower(a + b) == AsciiLower(a) + AsciiLower(b)
  {
  }

  /**
   * `_safe_filename(name)`: only characters of `[A-Za-z0-9._-]`, ending in
   * `.pdf` in any letter case; `.pdf` is appended exactly when the
   * sanitised name did not already end that way.
   */
  function SafeFilename(name: string): (r: string)
    ensures forall i :: 0 <= i < |r| ==> IsFilenameChar(r[i])
    ensures HasPdfExtension(r)
    ensures var base := ReplaceUnsafeRuns(name);
      if HasPdfExtension(base) then r == base else r == base + ".pdf"
  {
    var base := ReplaceUnsafeRuns(name);
    if HasPdfExtension(base) then base
    else
      AsciiLowerAppend(base, ".pdf");
      assert AsciiLower(".pdf") == ".pdf";
      base + ".pdf"
  }

  /** A name that is already safe is its own safe name. */
  lemma SafeFilenameIdempotent(name: string)
    ensures SafeFilename(SafeFilename(name)) == SafeFilename(name)
  {
    SafeNameUnchanged(SafeFilename(name));
  }

  // ----- ensure_pdf_url -----

  /** `abs_or_pdf_url.strip().replace("http://", "https://")` */
  function UpgradeScheme(url: string): string {
    ReplaceAll(Strip(url), "http://", "https://")
  }

  /**
   * `ensure_pdf_url(url)`: the result ends in `.pdf`; a URL that already
   * has a `/pdf/` path and a `.pdf` end is returned as stripped and
   * upgraded to https; otherwise `/abs/` paths become `/pdf/` paths and
   * `.pdf` is appended when missing.
   */
  function EnsurePdfUrl(url: string): (r: string)
    ensures EndsWith(r, ".pdf")
    ensures var u := UpgradeScheme(url);
      Contains(u, "/pdf/") && EndsWith(u, ".pdf") ==> r == u
    ensures var u := UpgradeScheme(url);
      var v := ReplaceAll(u, "/abs/", "/pdf/");
      !(Contains(u, "/pdf/") && EndsWith(u, ".pdf")) ==>
        r == if EndsWith(v, ".pdf") then v else v + ".pdf"
  {
    var u := UpgradeScheme(url);
    if Contains(u, "/pdf/") && EndsWith(u, ".pdf") then u
    else
      var v := ReplaceAll(u, "/abs/", "/pdf/");
      if EndsWith(v, ".pdf") then v else v + ".pdf"
  }

  /** A prefix of a scheme-upgraded text that has no `h` in it is a prefix of the original. */
  lemma {:induction false} UpgradePrefixWithoutH(t: string, w: string)
    requires 'h' !in w
    ensures w <= ReplaceAll(t, "http://", "https://") ==> w <= t
  {
    if t != [] && !("http://" <= t) && w != [] {
      UpgradePrefixWithoutH(t[1..], w[1..]);
      assert w == [w[0]] + w[1..];
    }
  }

  lemma ContainsCons(c: char, x: string, p: string)
    ensures Contains([c] + x, p) <==> p <= [c] + x || Contains(x, p)
  {
    assert ([c] + x)[1..] == x;
  }

  lemma PrefixCons(c: char, x: string, p: string)
    requires p != []
    ensures p <= [c] + x <==> c == p[0] && p[1..] <= x
  {
    assert p == [p[0]] + p[1..];
  }

  /** Writing `https://` in front of a text creates no `http://`. */
  lemma NoHttpAfterHttps(x: string)
    requires !Contains(x, "http://")
    ensures !Contains("https://" + x, "http://")
  {
    var p := "http://";
    var w := "https://" + x;
    var k := 0;
    while k < 8
      invariant 0 <= k <= 8
      invariant Contains(w, p) ==> Contains(w[k..], p)
    {
      assert w[k..] == [w[k]] + w[k + 1..];
      ContainsCons(w[k], w[k + 1..], p);
      if k == 0 {
        assert w[k..][4] != p[4];
      } else {
        assert w[k..][0] != p[0];
      }
      k := k + 1;
    }
    assert w[8..] == x;
  }

  /** After the scheme upgrade no `http://` is left anywhere in the URL. */
  lemma {:induction false} UpgradeLeavesNoHttp(s: string)
    ensures !Contains(ReplaceAll(s, "http://", "https://"), "http://")
    decreases |s|
  {
    var p := "http://";
    if s == [] {
      assert !(p <= []);
    } else if p <= s {
      UpgradeLeavesNoHttp(s[7..]);
      NoHttpAfterHttps(ReplaceAll(s[7..], p, "https://"));
    } else {
      UpgradeLeavesNoHttp(s[1..]);
      var x := ReplaceAll(s[1..], p, "https://");
      UpgradePrefixWithoutH(s[1..], "ttp://");
      assert s == [s[0]] + s[1..];
      PrefixCons(s[0], s[1..], p);
      PrefixCons(s[0], x, p);
      ContainsCons(s[0], x, p);
    }
  }

  /** A text that lacks one of the characters of `sub` does not contain `sub`. */
  lemma MissingChar(s: string, sub: string, j: int)
    requires 0 <= j < |sub| && sub[j] !in s
    ensures !Contains(s, sub)
  {
    ContainsIffOccurs(s, sub);
    forall i | 0 <= i && i + |sub| <= |s| ensures !OccursAt(s, sub, i) {
      assert s[i..i + |sub|][j] == s[i + j];
    }
  }

  /** `re.sub` copies a character at which the pattern does not start. */
  lemma ReplaceSkipsChar(c: char, x: string, pat: string, rep: string)
    requires pat != [] && !(pat <= [c] + x)
    ensures ReplaceAll([c] + x, pat, rep) == [c] + ReplaceAll(x, pat, rep)
  {
    assert ([c] + x)[1..] == x;
  }

  /**
   * An abstract page URL `http://<host>/abs/<id>`, as arXiv gives for the
   * id of an entry, becomes the https link to its PDF.
   */
  lemma EnsurePdfUrlOnAbstractPage(host: string, id: string)
    requires '/' !in host && ':' !in host && host != "abs"
    requires id != [] && '/' !in id && ':' !in id && '0' <= id[|id| - 1] <= '9'
    ensures EnsurePdfUrl("http://" + host + "/abs/" + id) == "https://" + host + "/pdf/" + id + ".pdf"
  {
    ArxivSchemeUpgraded(host, id);
    ArxivPathRewritten(host, id);
    var u := "https://" + host + "/abs/" + id;
    var v := "https://" + host + "/pdf/" + id;
    assert u[|u| - 1] == id[|id| - 1] && v[|v| - 1] == id[|id| - 1];
    assert !EndsWith(u, ".pdf") && !EndsWith(v, ".pdf");
  }

  lemma ArxivSchemeUpgraded(host: string, id: string)
    requires ':' !in host
    requires id != [] && ':' !in id && '0' <= id[|id| - 1] <= '9'
    ensures UpgradeScheme("http://" + host + "/abs/" + id) == "https://" + host + "/abs/" + id
  {
    var path := host + "/abs/" + id;
    var url := "http://" + path;
    Prepend("http://", host, "/abs/", id);
    Prepend("https://", host, "/abs/", id);
    assert url[0] == 'h' && url[|url| - 1] == id[|id| - 1];
    StripIdentity(url, IsSpace);
    SchemeUpgradedOnce(path);
  }

  lemma Prepend(p: string, a: string, b: string, c: string)
    ensures p + (a + b + c) == p + a + b + c
  {
  }

  lemma SchemeUpgradedOnce(path: string)
    requires ':' !in path
    ensures ReplaceAll("http://" + path, "http://", "https://") == "https://" + path
  {
    MissingChar(path, "http://", 4);
    ReplaceAbsent(path, "http://", "https://");
    assert ("http://" + path)[7..] == path;
  }

  lemma ArxivPathRewritten(host: string, id: string)
    requires '/' !in host && host != "abs" && '/' !in id
    ensures ReplaceAll("https://" + host + "/abs/" + id, "/abs/", "/pdf/") == "https://" + host + "/pdf/" + id
  {
    var path := host + "/abs/" + id;
    assert "https://" + host + "/abs/" + id == "https://" + path;
    SchemeCopied(path);
    SlashesCopied(host, id);
    ReplaceOnce(host, id, "/abs/", "/pdf/");
    Regroup("https:", "//", host, "/pdf/", id);
    assert "https:" + "//" == "https://";
  }

  lemma Regroup(p: string, q: string, a: string, b: string, c: string)
    ensures p + (q + (a + b + c)) == (p + q) + a + b + c
  {
  }

  /** The scheme "https:" holds no slash, so it is copied unchanged. */
  lemma SchemeCopied(path: string)
    ensures ReplaceAll("https://" + path, "/abs/", "/pdf/") == "https:" + ReplaceAll("//" + path, "/abs/", "/pdf/")
  {
    assert "https://" + path == "https:" + ("//" + path);
    ReplacePrefixFree("https:", "//" + path, "/abs/", "/pdf/");
  }

  /** The two slashes after the scheme do not start an `/abs/` path. */
  lemma SlashesCopied(host: string, id: string)
    requires '/' !in host && host != "abs"
    ensures var path := host + "/abs/" + id;
      ReplaceAll("//" + path, "/abs/", "/pdf/") == "//" + ReplaceAll(path, "/abs/", "/pdf/")
  {
    var path := host + "/abs/" + id;
    assert "//" + path == ['/'] + ("/" + path);
    assert ("//" + path)[1] != 'a';
    ReplaceSkipsChar('/', "/" + path, "/abs/", "/pdf/");
    assert "/" + path == ['/'] + path;
    assert !("abs/" <= path) by {
      if |host| >= 4 {
        assert path[3] == host[3];
      } else if |host| == 3 {
        assert path[..3] == host;
      } else {
        assert path[|host|] == '/';
      }
    }
    PrefixCons('/', path, "/abs/");
    ReplaceSkipsChar('/', path, "/abs/", "/pdf/");
  }

  // ----- clean_json_block -----

  predicate IsAsciiLetter(c: char) {
    ('a' <= c <= 'z') || ('A' <= c <= 'Z')
  }

  /** `re.sub(r"^```[a-zA-Z]*\n?", "", raw)` on a text that starts with the fence */
  function DropOpeningFence(raw: string): (r: string)
    requires StartsWith(raw, "```")
    ensures |r| <= |raw| - 3 && r == raw[|raw| - |r|..]
  {
    var afterTag := LStripBy(raw[3..], IsAsciiLetter);
    if afterTag != [] && afterTag[0] == '\n' then afterTag[1..] else afterTag
  }

  /** Drops a closing fence and the line feed right before it, if there is one. */
  function DropFenceAt(body: string): string {
    if body != [] && body[|body| - 1] == '\n' then body[..|body| - 1] else body
  }

  /**
   * `re.sub(r"\n?```$", "", raw)`: `$` matches at the end of the text or just
   * before a line feed that ends it.
   */
  function DropClosingFence(raw: string): string {
    if EndsWith(raw, "```") then DropFenceAt(raw[..|raw| - 3])
    else if EndsWith(raw, "```\n") then DropFenceAt(raw[..|raw| - 4]) + "\n"
    else raw
  }

  const FenceChars: set<char> := {'`', ' ', '\n'}

  /** The two substitutions `clean_json_block` applies when the text starts with a fence */
  function Unfence(stripped: string): string {
    if StartsWith(stripped, "```") then DropClosingFence(DropOpeningFence(stripped)) else stripped
  }

  /**
   * `clean_json_block(raw)`: the fences of a Markdown code block are removed
   * and the result neither starts nor ends with a backtick, a space or a
   * line feed.
   */
  function CleanJsonBlock(raw: string): (r: string)
    ensures r != [] ==> r[0] !in FenceChars && r[|r| - 1] !in FenceChars
  {
    var unfenced := Unfence(Strip(raw));
    StripCharsTrims(unfenced, FenceChars);
    StripChars(unfenced, FenceChars)
  }

  lemma StripCharsTrims(s: string, chars: set<char>)
    ensures var r := StripChars(s, chars);
      r != [] ==> r[0] !in chars && r[|r| - 1] !in chars
  {
    var a, b := StripBySlice(s, c => c in chars);
  }

  lemma StripCharsIdentity(s: string, chars: set<char>)
    requires s != [] ==> s[0] !in chars && s[|s| - 1] !in chars
    ensures StripChars(s, chars) == s
  {
    StripIdentity(s, c => c in chars);
  }

  /** A fenced block with a language tag gives back exactly its body. */
  lemma CleanJsonBlockUnfences(tag: string, body: string)
    requires forall i :: 0 <= i < |tag| ==> IsAsciiLetter(tag[i])
    requires body != [] && body[0] !in FenceChars && body[|body| - 1] !in FenceChars
    ensures CleanJsonBlock("```" + tag + "\n" + body + "\n```") == body
  {
    var raw := "```" + tag + "\n" + body + "\n```";
    StripIdentity(raw, IsSpace);
    OpeningFenceDropped(tag, body);
    ClosingFenceDropped(body);
    StripCharsIdentity(body, FenceChars);
  }

  lemma OpeningFenceDropped(tag: string, body: string)
    requires forall i :: 0 <= i < |tag| ==> IsAsciiLetter(tag[i])
    ensures DropOpeningFence("```" + tag + "\n" + body + "\n```") == body + "\n```"
  {
    var rest := "\n" + body + "\n```";
    FenceSplits("```", tag, "\n", body, "\n```");
    TagDropped(tag, rest);
    LineTail(body + "\n```");
  }

  lemma FenceSplits(open: string, tag: string, nl: string, body: string, close: string)
    ensures open + tag + nl + body + close == open + tag + (nl + body + close)
    ensures nl + body + close == nl + (body + close)
  {
  }

  lemma LineTail(s: string)
    ensures ("\n" + s)[1..] == s
  {
  }

  lemma TagDropped(tag: string, rest: string)
    requires forall i :: 0 <= i < |tag| ==> IsAsciiLetter(tag[i])
    requires rest != [] && rest[0] == '\n'
    ensures DropOpeningFence("```" + tag + rest) == rest[1..]
  {
    assert ("```" + tag + rest)[3..] == tag + rest;
    LettersStrip(tag, rest);
  }

  lemma ClosingFenceDropped(body: string)
    ensures DropClosingFence(body + "\n```") == body
  {
    var s := body + "\n```";
    assert EndsWith(s, "```");
    assert s[..|s| - 3] == body + "\n";
    assert (body + "\n")[..|body|] == body;
  }

  lemma {:induction false} LettersStrip(tag: string, rest: string)
    requires forall i :: 0 <= i < |tag| ==> IsAsciiLetter(tag[i])
    requires rest != [] && !IsAsciiLetter(rest[0])
    ensures LStripBy(tag + rest, IsAsciiLetter) == rest
  {
    if tag != [] {
      assert (tag + rest)[1..] == tag[1..] + rest;
      LettersStrip(tag[1..], rest);
    }
  }
}
