/**
 * The build step that writes the maps API key into the page: a line-oriented `.env` parser
 * (`KEY=value`, comments and blank lines skipped, the last duplicate wins), the check that the
 * key is present and non-empty, and the substitution of the key into the first
 * `google-maps-api-key` meta tag of the page template.
 */
module InjectEnv {

  import opened Wrappers
  import opened Text

  // ---------------------------------------------------------------------------------------
  // The .env parser
  // ---------------------------------------------------------------------------------------

  /** A line of a CRLF file keeps nothing of its line break: one trailing carriage return goes. */
  function DropCarriageReturn(line: string): (r: string)
    ensures (|line| > 0 && line[|line| - 1] == '\r') <==> line == r + ['\r']
    ensures !(|line| > 0 && line[|line| - 1] == '\r') ==> r == line
  {
    if |line| > 0 && line[|line| - 1] == '\r' then line[..|line| - 1] else line
  }

  /**
   * `content.split(/\r?\n/)`: the text between line feeds, where a carriage return right
   * before a line feed belongs to the line break.
   */
  function Lines(content: string): (lines: seq<string>)
    ensures |lines| >= 1
    ensures forall k :: 0 <= k < |lines| ==> '\n' !in lines[k]
    ensures |lines| == |Split(content, '\n')|
    ensures lines[|lines| - 1] == Split(content, '\n')[|lines| - 1]
    ensures forall k :: 0 <= k < |lines| - 1 ==> lines[k] == DropCarriageReturn(Split(content, '\n')[k])
  {
    var parts := Split(content, '\n');
    seq(|parts|, k requires 0 <= k < |parts| =>
      if k < |parts| - 1 then DropCarriageReturn(parts[k]) else parts[k])
  }

  /** A line ended by CR LF loses the whole line break, carriage return included. */
  lemma CrLfEndsLine(first: string, rest: string)
    requires '\n' !in first
    ensures Lines(first + "\r\n" + rest)[0] == first
  {
    var content := first + "\r\n" + rest;
    assert content[|first| + 1] == '\n';
    assert content[..|first| + 1] == first + ['\r'];
    SplitAtFirst(content, '\n', |first| + 1);
  }

  /** Every character of a part of `s.split(sep)` is a character of `s`. */
  lemma {:induction false} SplitPartsWithin(s: string, sep: char)
    ensures forall k, c :: 0 <= k < |Split(s, sep)| && c in Split(s, sep)[k] ==> c in s
  {
    if |s| > 0 {
      SplitPartsWithin(s[1..], sep);
      var rest := Split(s[1..], sep);
      forall k, c | 0 <= k < |Split(s, sep)| && c in Split(s, sep)[k]
        ensures c in s
      {
        assert s == [s[0]] + s[1..];
        if s[0] == sep {
          if k > 0 {
            assert Split(s, sep)[k] == rest[k - 1];
          }
        } else if k == 0 {
          assert Split(s, sep)[0] == [s[0]] + rest[0];
          assert c == s[0] || c in rest[0];
        } else {
          assert Split(s, sep)[k] == rest[k];
        }
      }
    }
  }

  /** Text with no carriage return splits into lines that join back to it with line feeds. */
  lemma LinesRejoin(content: string)
    requires '\r' !in content
    ensures Join(Lines(content), "\n") == content
  {
    var parts := Split(content, '\n');
    SplitPartsWithin(content, '\n');
    assert forall k :: 0 <= k < |parts| ==> '\r' !in parts[k];
    assert Lines(content) == parts;
    JoinSplit(content, '\n');
  }

  datatype Entry = Entry(key: string, value: string)

  /** A trimmed line that is neither blank nor a `#` comment. */
  predicate Significant(line: string) {
    line != "" && !StartsWith(line, "#")
  }

  /** The key is the text before the first `=`, the value everything after it, both trimmed. */
  function ParseLine(line: string): (e: Entry)
    ensures Trimmed(e)
  {
    var parts := Split(line, '=');
    TrimIdempotent(parts[0]);
    TrimIdempotent(Join(parts[1..], "="));
    Entry(Trim(parts[0]), Trim(Join(parts[1..], "=")))
  }

  /** Neither the key nor the value has whitespace left at either end. */
  predicate Trimmed(e: Entry) {
    Trim(e.key) == e.key && Trim(e.value) == e.value
  }

  /** With an `=` first at index `k`, the entry is the trimmed text on either side of it. */
  lemma ParseLineAtFirstEquals(line: string, k: nat)
    requires k < |line| && line[k] == '=' && '=' !in line[..k]
    ensures ParseLine(line) == Entry(Trim(line[..k]), Trim(line[k + 1..]))
  {
    SplitAtFirst(line, '=', k);
  }

  /** Without any `=`, the whole line is the key and the value is empty. */
  lemma ParseLineWithoutEquals(line: string)
    requires '=' !in line
    ensures ParseLine(line) == Entry(Trim(line), "")
  {
    SplitWithoutSeparator(line, '=');
    assert Split(line, '=')[1..] == [];
    assert Trim("") == "";
  }

  /** The entries of the lines, in order: trimmed, skipped when not significant, then parsed. */
  function Entries(lines: seq<string>): (entries: seq<Entry>)
    ensures forall i :: 0 <= i < |entries| ==> Trimmed(entries[i])
  {
    if |lines| == 0 then [] else LineEntries(lines[0]) + Entries(lines[1..])
  }

  /** The entry of one line: none for a blank or comment line. */
  function LineEntries(line: string): (entries: seq<Entry>)
    ensures |entries| <= 1
  {
    var trimmed := Trim(line);
    if Significant(trimmed) then [ParseLine(trimmed)] else []
  }

  /** Blank and comment lines contribute nothing; any other line contributes its parse. */
  lemma EntriesOfOneLine(line: string)
    ensures Entries([line]) == if Significant(Trim(line)) then [ParseLine(Trim(line))] else []
  {
    assert [line][1..] == [];
  }

  /** The lines are processed independently and in order. */
  lemma {:induction false} EntriesAppend(a: seq<string>, b: seq<string>)
    ensures Entries(a + b) == Entries(a) + Entries(b)
  {
    if |a| == 0 {
      assert a + b == b;
    } else {
      assert (a + b)[0] == a[0];
      assert (a + b)[1..] == a[1..] + b;
      EntriesAppend(a[1..], b);
      assert Entries(a + b) == LineEntries(a[0]) + Entries(a[1..] + b);
    }
  }

  /** `Object.fromEntries`: each entry sets its key, so a later duplicate overrides an earlier one. */
  function FromEntries(entries: seq<Entry>): (env: map<string, string>)
    ensures forall key :: key in env <==> exists i :: 0 <= i < |entries| && entries[i].key == key
  {
    if |entries| == 0 then map[]
    else
      var last := entries[|entries| - 1];
      var env := FromEntries(entries[..|entries| - 1]);
      assert forall i :: 0 <= i < |entries| - 1 ==> entries[..|entries| - 1][i] == entries[i];
      env[last.key := last.value]
  }

  /** The value of a key is the value of its last occurrence. */
  lemma {:induction false} FromEntriesLastWins(entries: seq<Entry>, i: nat)
    requires i < |entries|
    requires forall j :: i < j < |entries| ==> entries[j].key != entries[i].key
    ensures entries[i].key in FromEntries(entries)
    ensures FromEntries(entries)[entries[i].key] == entries[i].value
  {
    if i < |entries| - 1 {
      var init := entries[..|entries| - 1];
      assert forall j :: i < j < |init| ==> init[j] == entries[j];
      FromEntriesLastWins(init, i);
    }
  }

  /** When every entry is trimmed, so is every name and value of the object built from them. */
  lemma {:induction false} FromEntriesTrimmed(entries: seq<Entry>)
    requires forall i :: 0 <= i < |entries| ==> Trimmed(entries[i])
    ensures forall key :: key in FromEntries(entries) ==>
              Trim(key) == key && Trim(FromEntries(entries)[key]) == FromEntries(entries)[key]
  {
    if |entries| > 0 {
      var init := entries[..|entries| - 1];
      assert forall i :: 0 <= i < |init| ==> init[i] == entries[i];
      FromEntriesTrimmed(init);
      assert Trimmed(entries[|entries| - 1]);
    }
  }

  /**
   * The variables of a `.env` file: a name is defined exactly when some significant line
   * defines it, and every name and value comes out trimmed.
   */
  function ParseEnv(content: string): (env: map<string, string>)
    ensures forall key :: key in env <==>
              exists i :: 0 <= i < |Entries(Lines(content))| && Entries(Lines(content))[i].key == key
    ensures forall key :: key in env ==> Trim(key) == key && Trim(env[key]) == env[key]
  {
    FromEntriesTrimmed(Entries(Lines(content)));
    FromEntries(Entries(Lines(content)))
  }

  const ApiKeyName: string := "GOOGLE_MAPS_API_KEY"

  /** The API key, or nothing when it is missing or empty (the build then fails). */
  function ApiKey(env: map<string, string>): (key: Option<string>)
    ensures key.Some? <==> ApiKeyName in env && env[ApiKeyName] != ""
    ensures key.Some? ==> key.value == env[ApiKeyName]
  {
    if ApiKeyName in env && env[ApiKeyName] != "" then Some(env[ApiKeyName]) else None
  }

  // ---------------------------------------------------------------------------------------
  // The meta-tag substitution
  // ---------------------------------------------------------------------------------------

  /** The text that opens the placeholder tag, up to the opening quote of its content. */
  const TagOpen: string := "<meta name=\"google-maps-api-key\" content=\""

  /** The text that closes the placeholder tag. */
  const TagClose: string := "\" />"

  /** The first quote at or after `from`, or the end of `s`: where `[^"]*` stops. */
  function QuoteEnd(s: string, from: nat): (q: nat)
    requires from <= |s|
    ensures from <= q <= |s|
    ensures forall k :: from <= k < q ==> s[k] != '"'
    ensures q < |s| ==> s[q] == '"'
    decreases |s| - from
  {
    if from == |s| || s[from] == '"' then from else QuoteEnd(s, from + 1)
  }

  /** The placeholder pattern matches at `i`: opening text, a quote-free content, closing text. */
  predicate MatchesAt(s: string, i: nat) {
    && i + |TagOpen| <= |s| && s[i..i + |TagOpen|] == TagOpen
    && var q := QuoteEnd(s, i + |TagOpen|);
       q + |TagClose| <= |s| && s[q..q + |TagClose|] == TagClose
  }

  /** The leftmost match at or after `from`. */
  function FindTag(s: string, from: nat): (i: Option<nat>)
    requires from <= |s|
    ensures i.Some? ==> from <= i.value <= |s| && MatchesAt(s, i.value)
                        && forall j :: from <= j < i.value ==> !MatchesAt(s, j)
    ensures i.None? ==> forall j :: from <= j <= |s| ==> !MatchesAt(s, j)
    decreases |s| - from
  {
    if MatchesAt(s, from) then Some(from)
    else if from == |s| then None
    else FindTag(s, from + 1)
  }

  /** The content of the tag matched at `i`. */
  function ContentAt(s: string, i: nat): string
    requires MatchesAt(s, i)
  {
    s[i + |TagOpen|..QuoteEnd(s, i + |TagOpen|)]
  }

  /**
   * The template's `replace`: the content of the first placeholder tag becomes the key, its
   * opening and closing text are kept; without a placeholder the template is unchanged.
   */
  function InjectApiKey(html: string, key: string): (r: string)
    ensures FindTag(html, 0).None? ==> r == html
  {
    match FindTag(html, 0)
    case None => html
    case Some(i) => Substitute(html, i, key)
  }

  /** The page with the content of the tag matched at `i` replaced by `key`. */
  function Substitute(html: string, i: nat, key: string): string
    requires MatchesAt(html, i)
  {
    html[..i] + TagOpen + key + TagClose + html[QuoteEnd(html, i + |TagOpen|) + |TagClose|..]
  }

  /** Two texts that agree before `n` have the same first quote after `from` when one lies before `n`. */
  lemma {:induction false} QuoteEndAgrees(a: string, b: string, from: nat, n: nat, p: nat)
    requires from <= p < n <= |a| && n <= |b| && a[..n] == b[..n]
    requires a[p] == '"'
    ensures QuoteEnd(a, from) == QuoteEnd(b, from) <= p
    decreases p - from
  {
    assert a[from] == a[..n][from] == b[..n][from] == b[from];
    if a[from] != '"' {
      QuoteEndAgrees(a, b, from + 1, n, p);
    }
  }

  /** The opening text has its `<` only at the start, so two of its occurrences never overlap. */
  lemma TagOpenShape()
    ensures |TagOpen| == 42 && TagOpen[11] == '"' && TagOpen[|TagOpen| - 1] == '"'
    ensures forall k :: 0 < k < |TagOpen| ==> TagOpen[k] != '<'
  {
  }

  /** The characters of an occurrence of the opening text at `j`. */
  lemma OccurrenceChars(a: string, j: nat)
    requires j + |TagOpen| <= |a| && a[j..j + |TagOpen|] == TagOpen
    ensures forall x :: j <= x < j + |TagOpen| ==> a[x] == TagOpen[x - j]
  {
    forall x | j <= x < j + |TagOpen| ensures a[x] == TagOpen[x - j] {
      assert a[x] == a[j..j + |TagOpen|][x - j];
    }
  }

  /** Two texts that agree before `n` agree on every slice that ends by `n`. */
  lemma SliceAgrees(a: string, b: string, n: nat, x: nat, y: nat)
    requires x <= y <= n <= |a| && n <= |b| && a[..n] == b[..n]
    ensures a[x..y] == b[x..y]
  {
    forall k | x <= k < y ensures a[k] == b[k] {
      assert a[k] == a[..n][k];
    }
  }

  /** An occurrence of the opening text ends before a later one starts. */
  lemma NoOverlap(a: string, i: nat, j: nat)
    requires j < i && i + |TagOpen| <= |a| && a[i..i + |TagOpen|] == TagOpen
    requires j + |TagOpen| <= |a| && a[j..j + |TagOpen|] == TagOpen
    ensures j + |TagOpen| <= i
  {
    TagOpenShape();
    OccurrenceChars(a, j);
    assert a[i] == a[i..i + |TagOpen|][0] == '<';
  }

  /**
   * A match at `j` that ends its opening text by `i + |TagOpen|` in a text agreeing with
   * another before that point is also a match in the other text, provided an opening text
   * starts at `i` in both.
   */
  lemma MatchBeforeTransfers(a: string, b: string, i: nat, j: nat)
    requires j < i && i + |TagOpen| <= |a| && i + |TagOpen| <= |b|
    requires a[..i + |TagOpen|] == b[..i + |TagOpen|]
    requires a[i..i + |TagOpen|] == TagOpen
    requires MatchesAt(a, j)
    ensures MatchesAt(b, j)
  {
    var n := i + |TagOpen|;
    NoOverlap(a, i, j);
    assert a[i + 11] == a[i..n][11];
    QuoteEndAgrees(a, b, j + |TagOpen|, n, i + 11);
    var q := QuoteEnd(a, j + |TagOpen|);
    SliceAgrees(a, b, n, j, j + |TagOpen|);
    SliceAgrees(a, b, n, q, q + |TagClose|);
  }

  /** The five pieces of a concatenation, read back by slicing. */
  lemma FivePieces(p0: string, p1: string, p2: string, p3: string, p4: string)
    ensures var r := p0 + p1 + p2 + p3 + p4;
            var e0 := |p0|;
            var e1 := e0 + |p1|;
            var e2 := e1 + |p2|;
            var e3 := e2 + |p3|;
            && r[..e0] == p0 && r[e0..e1] == p1 && r[e1..e2] == p2 && r[e2..e3] == p3 && r[e3..] == p4
            && r[..e1] == p0 + p1
  {
  }

  /** The substituted page, piece by piece: the page before the tag, the new tag, the rest. */
  lemma InjectedLayout(html: string, i: nat, key: string)
    requires MatchesAt(html, i)
    ensures var start := i + |TagOpen|;
            var q := QuoteEnd(html, start);
            var r := Substitute(html, i, key);
            && start + |key| + |TagClose| <= |r|
            && r[..i] == html[..i]
            && r[..start] == html[..start]
            && r[i..start] == TagOpen
            && r[start..start + |key|] == key
            && r[start + |key|..start + |key| + |TagClose|] == TagClose
            && r[start + |key| + |TagClose|..] == html[q + |TagClose|..]
  {
    var start := i + |TagOpen|;
    var q := QuoteEnd(html, start);
    var pre, tail := html[..i], html[q + |TagClose|..];
    FivePieces(pre, TagOpen, key, TagClose, tail);
    assert html[..start] == pre + TagOpen by {
      assert html[i..start] == TagOpen;
    }
  }

  /** A tag written with a quote-free content matches, and its content ends where the key ends. */
  lemma WrittenTagMatches(r: string, i: nat, key: string)
    requires '"' !in key
    requires i + |TagOpen| + |key| + |TagClose| <= |r|
    requires r[i..i + |TagOpen|] == TagOpen
    requires r[i + |TagOpen|..i + |TagOpen| + |key|] == key
    requires r[i + |TagOpen| + |key|..i + |TagOpen| + |key| + |TagClose|] == TagClose
    ensures QuoteEnd(r, i + |TagOpen|) == i + |TagOpen| + |key|
    ensures MatchesAt(r, i) && ContentAt(r, i) == key
  {
    var start := i + |TagOpen|;
    forall k | start <= k < start + |key| ensures r[k] != '"' {
      assert r[k] == r[start..start + |key|][k - start] == key[k - start];
    }
    assert r[start + |key|] == r[start + |key|..start + |key| + |TagClose|][0] == '"';
    QuoteEndAgrees(r, r, start, |r|, start + |key|);
  }

  /**
   * For a key without quotes, the first placeholder of the injected page is where the
   * template's was, and its content is the key; the text before it and after it is unchanged.
   */
  lemma InjectedKeyReadsBack(html: string, key: string)
    requires FindTag(html, 0).Some?
    requires '"' !in key
    ensures var i := FindTag(html, 0).value;
            var r := InjectApiKey(html, key);
            && FindTag(r, 0) == Some(i)
            && ContentAt(r, i) == key
            && r[..i] == html[..i]
            && r[i + |TagOpen| + |key| + |TagClose|..] == html[QuoteEnd(html, i + |TagOpen|) + |TagClose|..]
  {
    var i := FindTag(html, 0).value;
    var r := InjectApiKey(html, key);
    assert r == Substitute(html, i, key);
    InjectedLayout(html, i, key);
    WrittenTagMatches(r, i, key);
    assert html[i..i + |TagOpen|] == TagOpen;
    forall j | 0 <= j < i
      ensures !MatchesAt(r, j)
    {
      if MatchesAt(r, j) {
        MatchBeforeTransfers(r, html, i, j);
      }
    }
    FindTagFirst(r, 0, i);
  }

  /** `FindTag` returns a match when no earlier position matches. */
  lemma {:induction false} FindTagFirst(s: string, from: nat, i: nat)
    requires from <= i <= |s| && MatchesAt(s, i)
    requires forall j :: from <= j < i ==> !MatchesAt(s, j)
    ensures FindTag(s, from) == Some(i)
    decreases i - from
  {
    if from < i {
      FindTagFirst(s, from + 1, i);
    }
  }
}
