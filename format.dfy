/** Display helpers of `src/utils/format.ts`: amounts with a fixed number of
  * decimals, shortened addresses and Markdown escaping. */
module Format {
  import opened Common
  import opened Numbers

  /** `formatAmount(amount, decimals)`: "0.00" for anything that is not a
    * number, otherwise `toFixed(decimals)`; None is the RangeError `toFixed`
    * throws for a digit count outside 0..100. */
  function FormatAmount(amount: Amount, decimals: int): (r: Option<string>)
    ensures NumericAmount(amount) == NaN ==> r == Some("0.00")
    ensures r == None <==> NumericAmount(amount) != NaN && !(0 <= decimals <= 100)
  {
    var x := NumericAmount(amount);
    if x == NaN then Some("0.00")
    else if decimals < 0 || decimals > 100 then None
    else if x == PosInfinity then Some("Infinity")
    else if x == NegInfinity then Some("-Infinity")
    else Some(ToFixed(x.d, decimals))
  }

  /** `formatAmount(amount)` with its default of two decimals, which never
    * throws. */
  function FormatAmount2(amount: Amount): (r: string)
    ensures FormatAmount(amount, 2) == Some(r)
  {
    FormatAmount(amount, 2).value
  }

  /** A NaN gives "0.00" whatever digit count is asked for. */
  lemma NaNAmountIsZero(amount: Amount, decimals: int)
    requires NumericAmount(amount) == NaN
    ensures FormatAmount(amount, decimals) == Some("0.00")
  {
  }

  /** A finite amount comes out as its value rounded half up to `decimals`
    * places: the text reads back as exactly that rounded number. */
  lemma {:induction false} FormatAmountRounds(amount: Amount, decimals: nat)
    requires NumericAmount(amount).Finite? && decimals <= 100
    ensures var d := NumericAmount(amount).d;
            ParseFloat(FormatAmount(amount, decimals).value)
              == Finite(Decimal(Signed(d.mantissa < 0, RoundedScaled(d, decimals)), -(decimals as int)))
  {
    FiniteAmountFixed(amount, decimals);
    ToFixedParses(NumericAmount(amount).d, decimals);
  }

  lemma FiniteAmountFixed(amount: Amount, decimals: nat)
    requires NumericAmount(amount).Finite? && decimals <= 100
    ensures FormatAmount(amount, decimals) == Some(ToFixed(NumericAmount(amount).d, decimals))
  {
  }

  /** `truncateAddress(address, startChars, endChars)`. */
  function TruncateAddress(address: string, startChars: nat, endChars: nat): (r: string)
    ensures address == "" ==> r == ""
    ensures |address| <= startChars + endChars ==> r == address
    ensures |address| > startChars + endChars ==>
              |r| == startChars + endChars + 3
              && r == address[..startChars] + "..." + address[|address| - endChars..]
  {
    if address == "" then ""
    else if |address| <= startChars + endChars then address
    else address[..startChars] + "..." + address[|address| - endChars..]
  }

  /** A shortened address starts with the address's first characters and
    * ends with its last ones. */
  lemma TruncateKeepsEnds(address: string, startChars: nat, endChars: nat)
    requires |address| > startChars + endChars
    ensures var r := TruncateAddress(address, startChars, endChars);
            r[..startChars] == address[..startChars]
            && r[|r| - endChars..] == address[|address| - endChars..]
            && r[startChars..startChars + 3] == "..."
  {
    var r := TruncateAddress(address, startChars, endChars);
    assert r == address[..startChars] + "..." + address[|address| - endChars..];
    assert r[|r| - endChars..] == address[|address| - endChars..];
  }

  /** The characters `escapeMarkdown` escapes, in the order of its
    * `replace` calls. */
  const MarkdownSpecials: seq<char> :=
    ['_', '*', '[', ']', '(', ')', '~', '`', '>', '#', '+', '-', '=', '|', '{', '}', '.', '!']

  /** One character, with a backslash in front when it is in `p`. */
  function EscapeChar(p: set<char>, c: char): (r: string)
    ensures r == (if c in p then ['\\', c] else [c])
  {
    if c in p then ['\\', c] else [c]
  }

  /** Every character of `p` prefixed with a backslash, the others kept. */
  function Escape(p: set<char>, s: string): (r: string)
    ensures |r| == |s| + Count(p, s)
  {
    if s == [] then [] else EscapeChar(p, s[0]) + Escape(p, s[1..])
  }

  /** How many characters of `s` are in `p`. */
  function Count(p: set<char>, s: string): nat
  {
    if s == [] then 0 else (if s[0] in p then 1 else 0) + Count(p, s[1..])
  }

  /** `s.replace(/c/g, '\\c')`: every occurrence of `c` prefixed with a
    * backslash. */
  function ReplaceAll(s: string, c: char): (r: string)
    ensures |r| == |s| + Count({c}, s)
  {
    Escape({c}, s)
  }

  /** The chain of `replace` calls, applied in order. */
  function ReplaceEach(cs: seq<char>, s: string): string
  {
    if cs == [] then s else ReplaceEach(cs[1..], ReplaceAll(s, cs[0]))
  }

  /** `escapeMarkdown`. */
  function EscapeMarkdown(text: string): string
  {
    ReplaceEach(MarkdownSpecials, text)
  }

  lemma {:induction false} EscapeConcat(p: set<char>, a: string, b: string)
    ensures Escape(p, a + b) == Escape(p, a) + Escape(p, b)
  {
    if a != [] {
      assert (a + b)[0] == a[0] && (a + b)[1..] == a[1..] + b;
      EscapeConcat(p, a[1..], b);
      calc {
        Escape(p, a + b);
        EscapeChar(p, a[0]) + Escape(p, a[1..] + b);
        EscapeChar(p, a[0]) + (Escape(p, a[1..]) + Escape(p, b));
        (EscapeChar(p, a[0]) + Escape(p, a[1..])) + Escape(p, b);
      }
    } else {
      assert a + b == b;
    }
  }

  lemma {:induction false} EscapeNothing(s: string)
    ensures Escape({}, s) == s
  {
    if s != [] {
      EscapeNothing(s[1..]);
    }
  }

  /** Escaping one more character after some others: because neither the
    * new character nor the backslash was escaped before, no inserted
    * backslash is matched again. */
  lemma {:induction false} EscapeOneMore(p: set<char>, c: char, s: string)
    requires c !in p && c != '\\' && '\\' !in p
    ensures Escape({c}, Escape(p, s)) == Escape(p + {c}, s)
  {
    if s != [] {
      var head := EscapeChar(p, s[0]);
      EscapeConcat({c}, head, Escape(p, s[1..]));
      EscapeOneMore(p, c, s[1..]);
      if s[0] in p {
        assert Escape({c}, head) == head by {
          assert head == ['\\'] + [s[0]];
          EscapeConcat({c}, ['\\'], [s[0]]);
        }
      }
    }
  }

  /** The characters of a list, as a set. */
  function CharSet(cs: seq<char>): (r: set<char>)
    ensures forall c :: c in r <==> c in cs
  {
    if cs == [] then {} else {cs[0]} + CharSet(cs[1..])
  }

  predicate Distinct(cs: seq<char>)
  {
    forall i, j :: 0 <= i < j < |cs| ==> cs[i] != cs[j]
  }

  /** The chain over a list of distinct non-backslash characters is the
    * per-character escape of all of them. */
  lemma {:induction false} ReplaceEachIsEscape(cs: seq<char>, p: set<char>, s: string)
    requires '\\' !in cs && '\\' !in p
    requires forall c :: c in cs ==> c !in p
    requires Distinct(cs)
    ensures ReplaceEach(cs, Escape(p, s)) == Escape(p + CharSet(cs), s)
  {
    if cs != [] {
      EscapeOneMore(p, cs[0], s);
      var rest := cs[1..];
      forall c | c in rest
        ensures c !in p + {cs[0]}
      {
        var k :| 0 <= k < |rest| && rest[k] == c;
        assert cs[k + 1] == c;
      }
      forall i, j | 0 <= i < j < |rest|
        ensures rest[i] != rest[j]
      {
        assert rest[i] == cs[i + 1] && rest[j] == cs[j + 1];
      }
      ReplaceEachIsEscape(rest, p + {cs[0]}, s);
      assert ReplaceAll(Escape(p, s), cs[0]) == Escape(p + {cs[0]}, s);
      assert ReplaceEach(cs, Escape(p, s)) == ReplaceEach(rest, Escape(p + {cs[0]}, s));
      assert p + {cs[0]} + CharSet(rest) == p + CharSet(cs);
    } else {
      assert p + CharSet(cs) == p;
    }
  }

  /** The chain over distinct non-backslash characters, from the raw text. */
  lemma ReplaceEachPerChar(cs: seq<char>, text: string)
    requires '\\' !in cs && Distinct(cs)
    ensures ReplaceEach(cs, text) == Escape(CharSet(cs), text)
  {
    EscapeNothing(text);
    ReplaceEachIsEscape(cs, {}, text);
    assert {} + CharSet(cs) == CharSet(cs);
  }

  lemma SpecialsDistinct()
    ensures '\\' !in MarkdownSpecials
    ensures Distinct(MarkdownSpecials)
  {
  }

  /** `escapeMarkdown` is the per-character map that puts a backslash in
    * front of each of the 18 special characters and keeps every other
    * character; so the output is as long as the input plus the number of
    * special characters in it. */
  lemma EscapeMarkdownPerChar(text: string)
    ensures EscapeMarkdown(text) == Escape(CharSet(MarkdownSpecials), text)
    ensures |EscapeMarkdown(text)| == |text| + Count(CharSet(MarkdownSpecials), text)
  {
    SpecialsDistinct();
    ReplaceEachPerChar(MarkdownSpecials, text);
  }
}
