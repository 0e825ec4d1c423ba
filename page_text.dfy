/** The two computations app.js and main.js share (the same code): the current
    page's file name, which decides the highlighted navigation link, and
    today's date in the form the booking form's date input takes as its `min`.
    The page location and the clock are inputs here. */
module PageText {
  import opened Wrappers
  import opened Text

  /** The page a bare directory path (or the empty path) stands for. */
  const DefaultPage := "index.html"

  /** `location.pathname.split('/').pop() || 'index.html'`: the text after the
      last '/', or the default page when that text is empty. */
  function CurrentFileName(pathname: string): (name: string)
    ensures name != [] && '/' !in name
    ensures pathname == [] || pathname[|pathname| - 1] == '/' ==> name == DefaultPage
    ensures pathname != [] && pathname[|pathname| - 1] != '/' ==>
              |name| <= |pathname| && pathname[|pathname| - |name|..] == name &&
              (|name| == |pathname| || pathname[|pathname| - |name| - 1] == '/')
  {
    var last := LastField(pathname, '/');
    if last == [] then DefaultPage else last
  }

  /** A navigation link: its `href` attribute (absent or a string) and whether it
      carries the `active` class. */
  datatype Link = Link(href: Option<string>, active: bool)

  /** `highlightActiveLink`: every menu link whose `href` equals the current file
      name gains `active`; no link loses it and nothing else changes. */
  method HighlightActiveLink(pathname: string, links: array<Link>)
    modifies links
    ensures forall k :: 0 <= k < links.Length ==>
              links[k].href == old(links[k].href) &&
              links[k].active == (old(links[k].active) || links[k].href == Some(CurrentFileName(pathname)))
  {
    var fileName := CurrentFileName(pathname);
    MarkMatching(fileName, links);
  }

  /** The loop of `highlightActiveLink` over the menu links. */
  method MarkMatching(fileName: string, links: array<Link>)
    modifies links
    ensures forall k :: 0 <= k < links.Length ==>
              links[k] == old(links[k]).(active := old(links[k]).active || old(links[k]).href == Some(fileName))
  {
    ghost var was := links[..];
    for i := 0 to links.Length
      invariant forall k :: 0 <= k < i ==>
                  links[k] == was[k].(active := was[k].active || was[k].href == Some(fileName))
      invariant forall k :: i <= k < links.Length ==> links[k] == was[k]
    {
      if links[i].href == Some(fileName) {
        links[i] := links[i].(active := true);
      }
    }
  }

  /** Two decimal digits for a number below 100, zero-padded as `padStart(2, '0')` does. */
  function TwoDigits(n: nat): (s: string)
    requires n < 100
    ensures |s| == 2 && IsDigits(s) && DecimalValue(s) == n
  {
    var digits := NatToString(n);
    NatToStringRoundTrip(n);
    ZeroPadValue(digits, 2);
    PadStart(digits, 2, '0')
  }

  /** `setDateMin`: `${yyyy}-${mm}-${dd}` from the full year, the zero-based month
      index `getMonth()` gives and the day of the month. The year is printed as
      `String` prints it (not padded); month (one-based) and day always take two
      digits, and reading them back gives the calendar month and the day. */
  function DateMin(year: int, monthIndex: int, day: int): (r: string)
    requires 0 <= monthIndex < 12 && 1 <= day <= 31
    ensures var y := IntToString(year); |r| == |y| + 6 && r[..|y|] == y
    ensures r[|r| - 6] == '-' && r[|r| - 3] == '-'
    ensures IsDigits(r[|r| - 5..|r| - 3]) && DecimalValue(r[|r| - 5..|r| - 3]) == monthIndex + 1
    ensures IsDigits(r[|r| - 2..]) && DecimalValue(r[|r| - 2..]) == day
  {
    var y, mm, dd := IntToString(year), TwoDigits(monthIndex + 1), TwoDigits(day);
    DashedShape(y, mm, dd);
    y + ['-'] + mm + ['-'] + dd
  }

  /** Where the parts of `y-mm-dd` sit when `mm` and `dd` have two characters. */
  lemma DashedShape(y: string, mm: string, dd: string)
    requires |mm| == 2 && |dd| == 2
    ensures var r := y + ['-'] + mm + ['-'] + dd;
            |r| == |y| + 6 && r[..|y|] == y && r[|r| - 6] == '-' && r[|r| - 3] == '-' &&
            r[|r| - 5..|r| - 3] == mm && r[|r| - 2..] == dd
  {
    var r := y + ['-'] + mm + ['-'] + dd;
    assert r[..|y|] == y;
    assert r[|r| - 5..|r| - 3] == mm;
    assert r[|r| - 2..] == dd;
  }
}
