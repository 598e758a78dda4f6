/** The page control under the vocabulary list: four buttons and a text box
    holding a page number. Navigation (`router.push`) is recorded as the URL it
    would push. */
module Pagination {

  import opened Wrappers
  import opened JsNumbers

  /** `/learn?level={level}&page={page}`; `level` is already the text the
      template literal prints for it. */
  function PageUrl(level: string, page: int): string
  {
    "/learn?level=" + level + "&page=" + NumberToString(page)
  }

  /** `goToPage(page)`: navigates only to a page between 1 and `totalPages`. */
  function GoToPage(level: string, totalPages: int, page: int): (r: Option<string>)
    ensures r.Some? <==> 1 <= page <= totalPages
    ensures r.Some? ==> r.value == PageUrl(level, page)
  {
    if page >= 1 && page <= totalPages then Some(PageUrl(level, page)) else None
  }

  /** What committing the text box does: navigate, or put the current page
      number back into the box. */
  datatype Commit = Navigate(url: string) | ResetInput(text: string)

  /** Committing `input` (Enter or leaving the box). */
  function CommitInput(input: string, currentPage: int, totalPages: int, level: string): (r: Commit)
    ensures r.Navigate? <==> ParseInt(input).Some? && 1 <= ParseInt(input).value <= totalPages
    ensures r.Navigate? ==> r.url == PageUrl(level, ParseInt(input).value)
    ensures r.ResetInput? ==> r.text == NumberToString(currentPage)
  {
    match ParseInt(input)
    case Some(page) =>
      if page >= 1 && page <= totalPages then Navigate(GoToPage(level, totalPages, page).value)
      else ResetInput(NumberToString(currentPage))
    case None => ResetInput(NumberToString(currentPage))
  }

  /** The text a reset puts back is stable: committing it again goes to the
      current page when that page is in range, and otherwise resets to the same
      text. */
  lemma CommitOfResetText(currentPage: int, totalPages: int, level: string)
    ensures CommitInput(NumberToString(currentPage), currentPage, totalPages, level) ==
              if 1 <= currentPage <= totalPages then Navigate(PageUrl(level, currentPage))
              else ResetInput(NumberToString(currentPage))
  {
    ParseIntOfNumberToString(currentPage);
  }

  /** Text with a leading page number commits that page; text without one is
      reset. */
  lemma CommitExamples(level: string)
    ensures CommitInput("3abc", 1, 5, level) == Navigate(PageUrl(level, 3))
    ensures CommitInput("abc", 2, 5, level) == ResetInput(NumberToString(2))
    ensures CommitInput("", 2, 5, level) == ResetInput(NumberToString(2))
    ensures CommitInput("9", 2, 5, level) == ResetInput(NumberToString(2))
  {
    assert "3abc" == "3" + "abc";
    ParseIntReadsDigitPrefix("3", "abc");
    assert DigitsValue("3", 10) == 3 by {
      assert "3"[..0] == [];
    }
    ParseIntRejectsNonNumeric("abc");
    ParseIntRejectsNonNumeric("");
    ParseIntOfNumberToString(9);
    assert NumberToString(9) == "9";
  }

  datatype NavButton = FirstPage | PreviousPage | NextPage | LastPage

  /** First and previous are disabled on page 1 or below; next and last on the
      last page or beyond. */
  function IsDisabled(b: NavButton, currentPage: int, totalPages: int): bool
  {
    match b
    case FirstPage => currentPage <= 1
    case PreviousPage => currentPage <= 1
    case NextPage => currentPage >= totalPages
    case LastPage => currentPage >= totalPages
  }

  /** The page each button asks `goToPage` for. */
  function Target(b: NavButton, currentPage: int, totalPages: int): int
  {
    match b
    case FirstPage => 1
    case PreviousPage => currentPage - 1
    case NextPage => currentPage + 1
    case LastPage => totalPages
  }

  /** On a page within range, every enabled button leads to a different page in
      range, so its click navigates; the first and last buttons are disabled
      exactly on the first and last page. */
  lemma EnabledButtonNavigates(b: NavButton, currentPage: int, totalPages: int, level: string)
    requires 1 <= currentPage <= totalPages
    ensures !IsDisabled(b, currentPage, totalPages) ==>
              && Target(b, currentPage, totalPages) != currentPage
              && GoToPage(level, totalPages, Target(b, currentPage, totalPages)) ==
                 Some(PageUrl(level, Target(b, currentPage, totalPages)))
    ensures IsDisabled(FirstPage, currentPage, totalPages) <==> currentPage == 1
    ensures IsDisabled(LastPage, currentPage, totalPages) <==> currentPage == totalPages
  {
  }

  /** The component's state: the text box (`inputPage`) and the props it was
      last rendered with. */
  class PageInput {
    var inputPage: string
    var currentPage: int
    var totalPages: int
    var level: string

    /** First render: the box shows the current page. */
    constructor (currentPage: int, totalPages: int, level: string)
      ensures this.currentPage == currentPage && this.totalPages == totalPages && this.level == level
      ensures inputPage == NumberToString(currentPage)
    {
      this.currentPage := currentPage;
      this.totalPages := totalPages;
      this.level := level;
      inputPage := NumberToString(currentPage);
    }

    /** A render with new props. The effect keyed on `currentPage` resyncs the
        box only when the current page changed. */
    method Rerender(newCurrentPage: int, newTotalPages: int, newLevel: string)
      modifies this
      ensures currentPage == newCurrentPage && totalPages == newTotalPages && level == newLevel
      ensures inputPage == if newCurrentPage != old(currentPage) then NumberToString(newCurrentPage)
                           else old(inputPage)
    {
      var changed := newCurrentPage != currentPage;
      currentPage, totalPages, level := newCurrentPage, newTotalPages, newLevel;
      if changed {
        inputPage := NumberToString(currentPage);
      }
    }

    /** Typing replaces the box's text. */
    method InputChange(value: string)
      modifies this`inputPage
      ensures inputPage == value
    {
      inputPage := value;
    }

    /** Commits the box: navigates, or restores the current page's text. */
    method Commit() returns (nav: Option<string>)
      modifies this`inputPage
      ensures var c := CommitInput(old(inputPage), currentPage, totalPages, level);
              && (c.Navigate? ==> nav == Some(c.url) && inputPage == old(inputPage))
              && (c.ResetInput? ==> nav == None && inputPage == c.text)
    {
      var page := ParseInt(inputPage);
      if page.Some? && page.value >= 1 && page.value <= totalPages {
        nav := GoToPage(level, totalPages, page.value);
      } else {
        inputPage := NumberToString(currentPage);
        nav := None;
      }
    }

    /** A key press in the box; only Enter commits. */
    method KeyDown(key: string) returns (nav: Option<string>)
      modifies this`inputPage
      ensures key != "Enter" ==> nav == None && inputPage == old(inputPage)
      ensures key == "Enter" ==>
                var c := CommitInput(old(inputPage), currentPage, totalPages, level);
                && (c.Navigate? ==> nav == Some(c.url) && inputPage == old(inputPage))
                && (c.ResetInput? ==> nav == None && inputPage == c.text)
    {
      if key == "Enter" {
        nav := Commit();
      } else {
        nav := None;
      }
    }

    /** Leaving the box commits it. */
    method Blur() returns (nav: Option<string>)
      modifies this`inputPage
      ensures var c := CommitInput(old(inputPage), currentPage, totalPages, level);
              && (c.Navigate? ==> nav == Some(c.url) && inputPage == old(inputPage))
              && (c.ResetInput? ==> nav == None && inputPage == c.text)
    {
      nav := Commit();
    }
  }
}
