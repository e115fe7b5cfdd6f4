/**
 * The result card (components/ResultCard.tsx): the cost shown under a
 * result, how an amount is formatted, and how a text result is cut into
 * titled sections. Amounts are exact reals, standing in for the source's
 * floating-point numbers.
 */
module ResultCard {
  import opened Wrappers
  import opened Strings
  import opened Types

  const PricePer1MInputUsd: real := 0.10
  const PricePer1MOutputUsd: real := 0.40
  const PricePerImageUsd: real := 0.040
  const UsdToTry: real := 36.5

  /** The cost of a result in dollars, and whether it is only an estimate. */
  datatype Cost = Cost(usd: real, isEstimate: bool)

  /**
   * The price of the tokens of one text generation: prompt and response
   * tokens at their own rates; the total count plays no part.
   */
  function TokenCost(usage: TokenUsage): (r: real)
    ensures usage.promptTokens >= 0 && usage.responseTokens >= 0 ==> r >= 0.0
    ensures usage.promptTokens == 0 && usage.responseTokens == 0 ==> r == 0.0
  {
    (usage.promptTokens as real / 1000000.0) * PricePer1MInputUsd
    + (usage.responseTokens as real / 1000000.0) * PricePer1MOutputUsd
  }

  /** The cost branch: a flat estimate for an image, the token price when usage is known, else nothing. */
  function CostOf(result: GeneratedContent): (r: Cost)
    ensures r.isEstimate <==> result.kind == ImageContent
    ensures result.kind == ImageContent ==> r.usd == PricePerImageUsd
    ensures result.kind != ImageContent && result.tokenUsage.None? ==> r.usd == 0.0
    ensures result.kind != ImageContent && result.tokenUsage.Some? ==> r.usd == TokenCost(result.tokenUsage.value)
  {
    if result.kind == ImageContent then Cost(PricePerImageUsd, true)
    else if result.tokenUsage.Some? then Cost(TokenCost(result.tokenUsage.value), false)
    else Cost(0.0, false)
  }

  /** `costTRY`. */
  function CostTry(usd: real): real {
    usd * UsdToTry
  }

  /** More tokens of either kind never cost less. */
  lemma TokenCostMonotone(a: TokenUsage, b: TokenUsage)
    requires a.promptTokens <= b.promptTokens && a.responseTokens <= b.responseTokens
    ensures TokenCost(a) <= TokenCost(b)
  {
  }

  /** An image costs the same flat estimate whatever its token counts. */
  lemma ImageCostIgnoresTokens(content: string, u: Option<TokenUsage>, v: Option<TokenUsage>)
    ensures CostOf(GeneratedContent(ImageContent, content, u)) == CostOf(GeneratedContent(ImageContent, content, v))
  {
  }

  /** The `currency` argument of `formatMoney`. */
  datatype Currency = Usd | Try

  function CurrencyCode(c: Currency): string {
    match c
    case Usd => "USD"
    case Try => "TRY"
  }

  /**
   * What `formatMoney` shows: a fixed text, or the amount as the locale
   * formatter renders it (that rendering is not modelled).
   */
  datatype MoneyText = Plain(text: string) | Localized(amount: real, currency: Currency)

  /** `formatMoney`: "0" for zero, "< 0.01 <currency>" below a cent, otherwise the formatted amount. */
  function FormatMoney(amount: real, currency: Currency): (r: MoneyText)
    ensures r.Localized? <==> amount != 0.0 && amount >= 0.01
    ensures r.Localized? ==> r.amount == amount && r.currency == currency
    ensures amount == 0.0 ==> r == Plain("0")
    ensures amount != 0.0 && amount < 0.01 ==> r == Plain("< 0.01 " + CurrencyCode(currency))
  {
    if amount == 0.0 then Plain("0")
    else if amount < 0.01 then Plain("< 0.01 " + CurrencyCode(currency))
    else Localized(amount, currency)
  }

  /** An image shows 1.46 lira and 0.04 dollars, both through the formatter, marked as an estimate. */
  lemma ImageCostDisplay(content: string, u: Option<TokenUsage>)
    ensures var cost := CostOf(GeneratedContent(ImageContent, content, u));
      FormatMoney(CostTry(cost.usd), Try) == Localized(1.46, Try)
      && FormatMoney(cost.usd, Usd) == Localized(0.04, Usd) && cost.isEstimate
  {
  }

  /** A text result without usage shows "0" in both currencies and is not an estimate. */
  lemma UnmeteredTextIsFree(content: string)
    ensures var cost := CostOf(GeneratedContent(TextContent, content, None));
      FormatMoney(CostTry(cost.usd), Try) == Plain("0") && FormatMoney(cost.usd, Usd) == Plain("0")
      && !cost.isEstimate
  {
  }

  // ---------------------------------------------------------------------
  // Sections

  /** A titled section of a text result. */
  datatype Section = Section(title: string, body: string)

  /**
   * One `###` piece: nothing when it is blank, otherwise its first line as
   * the title and the other lines, rejoined and trimmed, as the body.
   */
  function SectionOf(piece: string): (r: Option<Section>)
    ensures r.None? <==> AllWhitespace(piece)
    ensures r.Some? ==> r.value.title <= piece && !Contains(r.value.title, "\n")
    ensures r.Some? && !Contains(piece, "###") ==> !Contains(r.value.title, "###")
  {
    TrimEmptyIffAllWhitespace(piece);
    if Trim(piece) == "" then None
    else
      var lines := Split(piece, "\n");
      FirstPieceIsPrefix(piece, "\n");
      SplitPiecesAvoidSeparator(piece, "\n");
      if !Contains(piece, "###") then
        PrefixKeepsAbsence(lines[0], piece, "###");
        Some(Section(lines[0], Trim(Join(lines[1..], "\n"))))
      else Some(Section(lines[0], Trim(Join(lines[1..], "\n"))))
  }

  /** The sections of the pieces, in order, blank pieces dropped. */
  function KeptSections(pieces: seq<string>): (r: seq<Section>)
    ensures |r| <= |pieces|
    ensures forall k :: 0 <= k < |r| ==> exists j :: 0 <= j < |pieces| && SectionOf(pieces[j]) == Some(r[k])
  {
    if |pieces| == 0 then []
    else
      var rest := KeptSections(pieces[1..]);
      assert forall j :: 0 <= j < |pieces| - 1 ==> pieces[1..][j] == pieces[j + 1];
      match SectionOf(pieces[0])
      case None => rest
      case Some(section) => [section] + rest
  }

  /**
   * The sections a text result is shown as: never more than the `###`
   * pieces, and no title holds a line break or the `###` marker.
   */
  function Sections(content: string): (r: seq<Section>)
    ensures |r| <= |Split(content, "###")|
    ensures forall k :: 0 <= k < |r| ==> !Contains(r[k].title, "\n") && !Contains(r[k].title, "###")
  {
    SplitPiecesAvoidSeparator(content, "###");
    KeptSections(Split(content, "###"))
  }

  /**
   * A kept piece is its title, then (if it has more than one line) a line
   * break and the text whose trimmed form is the body; the title has no line break.
   */
  lemma SectionReassembles(piece: string)
    requires Trim(piece) != ""
    ensures SectionOf(piece).Some?
    ensures var s := SectionOf(piece).value;
      !Contains(s.title, "\n")
      && ((piece == s.title && s.body == "")
          || (exists raw :: piece == s.title + "\n" + raw && s.body == Trim(raw)))
  {
    var lines := Split(piece, "\n");
    JoinSplit(piece, "\n");
    SplitPiecesAvoidSeparator(piece, "\n");
    if |lines| == 1 {
      assert Join(lines[1..], "\n") == "";
      assert Trim("") == "";
    } else {
      var raw := Join(lines[1..], "\n");
      assert piece == lines[0] + "\n" + raw;
    }
  }

  /** Every piece of a split of blank text is blank. */
  lemma {:induction false} SplitOfBlank(s: string, sep: string)
    requires |sep| > 0 && AllWhitespace(s)
    ensures forall k :: 0 <= k < |Split(s, sep)| ==> AllWhitespace(Split(s, sep)[k])
    decreases |s|
  {
    if |s| == 0 {
    } else if sep <= s {
      assert AllWhitespace(s[|sep|..]) by {
        forall i | 0 <= i < |s| - |sep| ensures IsJsWhitespace(s[|sep|..][i]) {
          assert s[|sep|..][i] == s[i + |sep|];
        }
      }
      SplitOfBlank(s[|sep|..], sep);
      var parts := Split(s, sep);
      forall k | 0 <= k < |parts| ensures AllWhitespace(parts[k]) {
        if k > 0 {
          assert parts[k] == Split(s[|sep|..], sep)[k - 1];
        }
      }
    } else {
      assert AllWhitespace(s[1..]) by {
        forall i | 0 <= i < |s| - 1 ensures IsJsWhitespace(s[1..][i]) {
          assert s[1..][i] == s[i + 1];
        }
      }
      SplitOfBlank(s[1..], sep);
      var rest := Split(s[1..], sep);
      var parts := Split(s, sep);
      forall k | 0 <= k < |parts| ensures AllWhitespace(parts[k]) {
        if k == 0 {
          var head := [s[0]] + rest[0];
          assert parts[0] == head;
          forall i | 0 <= i < |head| ensures IsJsWhitespace(head[i]) {
            if i > 0 {
              assert head[i] == rest[0][i - 1];
            }
          }
        } else {
          assert parts[k] == rest[k];
        }
      }
    }
  }

  /** The sections of blank pieces are none. */
  lemma {:induction false} KeptSectionsOfBlank(pieces: seq<string>)
    requires forall k :: 0 <= k < |pieces| ==> AllWhitespace(pieces[k])
    ensures KeptSections(pieces) == []
  {
    if |pieces| > 0 {
      TrimEmptyIffAllWhitespace(pieces[0]);
      KeptSectionsOfBlank(pieces[1..]);
    }
  }

  /** The sections of two runs of pieces are those of the first run, then those of the second. */
  lemma {:induction false} KeptSectionsAppend(xs: seq<string>, ys: seq<string>)
    ensures KeptSections(xs + ys) == KeptSections(xs) + KeptSections(ys)
  {
    if |xs| == 0 {
      assert xs + ys == ys;
    } else {
      assert (xs + ys)[0] == xs[0];
      assert (xs + ys)[1..] == xs[1..] + ys;
      KeptSectionsAppend(xs[1..], ys);
    }
  }

  /** One piece gives its section, or nothing when it is blank. */
  lemma KeptSection(piece: string)
    ensures KeptSections([piece]) == if AllWhitespace(piece) then [] else [SectionOf(piece).value]
  {
    assert [piece][1..] == [];
  }

  /**
   * Text holding `###` shows the section of the text before the first
   * marker (nothing when that text is blank), then the sections of the text
   * after it; the marker found is the leftmost.
   */
  lemma MarkedContentSections(content: string)
    requires Contains(content, "###")
    ensures var head := Split(content, "###")[0];
      && |head| + 3 <= |content|
      && content[..|head|] == head && content[|head|..|head| + 3] == "###"
      && (forall i: nat :: i < |head| ==> !OccursAt(content, "###", i))
      && Sections(content) == KeptSections([head]) + Sections(content[|head| + 3..])
  {
    var pieces := Split(content, "###");
    var head := pieces[0];
    SplitSingleIffAbsent(content, "###");
    SplitRest(content, "###");
    SplitFirstPieceEndsAtFirstOccurrence(content, "###");
    FirstPieceIsPrefix(content, "###");
    var tail := content[|head| + 3..];
    assert pieces[1..] == Split(tail, "###");
    assert Sections(tail) == KeptSections(pieces[1..]);
    assert pieces == [head] + pieces[1..];
    KeptSectionsAppend([head], pieces[1..]);
    assert Sections(content) == KeptSections(pieces);
  }

  /** Blank text shows no section at all. */
  lemma BlankContentHasNoSections(content: string)
    requires AllWhitespace(content)
    ensures Sections(content) == []
  {
    SplitOfBlank(content, "###");
    KeptSectionsOfBlank(Split(content, "###"));
  }

  /** Text that is not blank and has no `###` is one section, cut from the whole text. */
  lemma UnmarkedContentIsOneSection(content: string)
    requires !Contains(content, "###") && !AllWhitespace(content)
    ensures Sections(content) == [SectionOf(content).value]
  {
    SplitWithoutSeparator(content, "###");
    TrimEmptyIffAllWhitespace(content);
  }
}
