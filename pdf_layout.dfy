/** The page layout of the feedback report: where the report's k-th feedback
    line is drawn. The title sits at y = 800 on the first page; lines start
    at y = 780 and step down by 20; when the cursor falls below 50 a new page
    starts with the cursor back at 800. */
module PdfLayout {

  const TitleY := 800
  const FirstLineY := 780
  const PageTopY := 800
  const LineStep := 20
  const BottomMargin := 50

  /** Lines that fit on the first page (780 down to 60) and on every later
      page (800 down to 60). */
  const FirstPageLines := 37
  const PageLines := 38

  /** The page (0 = the title page) on which feedback line k is drawn. */
  function PageOf(k: nat): nat
  {
    if k < FirstPageLines then 0 else 1 + (k - FirstPageLines) / PageLines
  }

  /** The y coordinate at which feedback line k is drawn. */
  function YOf(k: nat): int
  {
    if k < FirstPageLines then FirstLineY - LineStep * k
    else PageTopY - LineStep * ((k - FirstPageLines) % PageLines)
  }

  /** One step of the drawing loop: move down by one line, and start a new
      page at the top when the cursor falls below the bottom margin. */
  lemma NextLine(k: nat)
    ensures YOf(k) - LineStep < BottomMargin ==> PageOf(k + 1) == PageOf(k) + 1 && YOf(k + 1) == PageTopY
    ensures YOf(k) - LineStep >= BottomMargin ==> PageOf(k + 1) == PageOf(k) && YOf(k + 1) == YOf(k) - LineStep
  {
  }

  /** Every feedback line is drawn above the bottom margin and no higher than
      the top of a page. */
  lemma LineWithinPage(k: nat)
    ensures BottomMargin < YOf(k) <= PageTopY
    ensures PageOf(k) == 0 ==> YOf(k) < TitleY
  {
  }
}
