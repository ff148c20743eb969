/** The avatar initials of the top navigation bar. */
module TopNavbar {
  import opened Js
  import opened Strings

  /** `s[0]` inside a template literal: the first character, or the text
      `undefined` for an empty string. */
  function FirstOrUndefined(s: string): (t: string)
    ensures s != "" ==> t == [s[0]]
    ensures s == "" ==> t == "undefined"
  {
    if s == "" then "undefined" else [s[0]]
  }

  /** `name.substring(0, 2)` */
  function FirstTwo(s: string): (t: string)
    ensures t <= s && |t| == if |s| < 2 then |s| else 2
  {
    if |s| < 2 then s else s[..2]
  }

  /** `getUserInitials(name)`: 'U' for a falsy name; otherwise the first
      characters of the first two space-separated parts, or the first two
      characters of a one-part name, uppercased. `.split` throws on a truthy
      name that is not a string. */
  function UserInitials(name: Option<Value>): (r: Result<string>)
    ensures !Truthy(name) ==> r == Ok("U")
    ensures Truthy(name) && !name.value.Str? ==> r == Err(TypeErrorMessage)
  {
    if !Truthy(name) then Ok("U")
    else match AsString(name)
      case None => Err(TypeErrorMessage)
      case Some(s) =>
        var names := Split(s, ' ');
        if |names| >= 2 then Ok(Upper(FirstOrUndefined(names[0]) + FirstOrUndefined(names[1])))
        else Ok(Upper(FirstTwo(s)))
  }

  /** A word and more words after one space: the two initials. */
  lemma TwoWordInitials(first: string, rest: string)
    requires first != "" && ' ' !in first && rest != "" && rest[0] != ' '
    ensures UserInitials(Some(Str(first + " " + rest))) == Ok(Upper([first[0], rest[0]]))
  {
    var s := first + " " + rest;
    assert s == first + [' '] + rest;
    SplitAtFirst(first, ' ', rest);
    SplitHead(rest, ' ');
    var names := Split(s, ' ');
    assert names[0] == first && names[1] == Split(rest, ' ')[0];
    assert FirstOrUndefined(names[0]) + FirstOrUndefined(names[1]) == [first[0], rest[0]];
  }

  /** Only the first two parts count: a third word changes nothing. */
  lemma LaterWordsIgnored(a: string, b: string, c: string)
    requires a != "" && ' ' !in a && b != "" && ' ' !in b && c != "" && c[0] != ' '
    ensures UserInitials(Some(Str(a + " " + b + " " + c))) == UserInitials(Some(Str(a + " " + b)))
  {
    assert a + " " + b + " " + c == a + " " + (b + " " + c);
    TwoWordInitials(a, b + " " + c);
    TwoWordInitials(a, b);
  }

  /** A name without spaces: its first two characters. */
  lemma OneWordInitials(w: string)
    requires w != "" && ' ' !in w
    ensures UserInitials(Some(Str(w))) == Ok(Upper(FirstTwo(w)))
  {
    SplitNoSeparator(w, ' ');
  }

  /** The first part of a split starts with the first character when that
      is not the separator. */
  lemma SplitHead(s: string, sep: char)
    requires s != [] && s[0] != sep
    ensures Split(s, sep)[0] != [] && Split(s, sep)[0][0] == s[0]
  {
  }

  /** A name whose first two parts are non-empty (no leading or doubled
      space) gets one or two letters. */
  lemma InitialsLength(s: string)
    requires s != ""
    requires |Split(s, ' ')| >= 2 ==> Split(s, ' ')[0] != "" && Split(s, ' ')[1] != ""
    ensures UserInitials(Some(Str(s))).Ok?
    ensures 1 <= |UserInitials(Some(Str(s))).value| <= 2
  {
  }

  /** A leading space empties the first part, whose missing first character
      prints as `undefined`: " Ann" becomes "UNDEFINEDA". */
  lemma LeadingSpaceInitials(rest: string)
    requires rest != "" && ' ' !in rest
    ensures UserInitials(Some(Str(" " + rest))) == Ok(Upper("undefined" + [rest[0]]))
  {
    assert " " + rest == [] + [' '] + rest;
    SplitAtFirst([], ' ', rest);
    SplitNoSeparator(rest, ' ');
    var names := Split(" " + rest, ' ');
    assert names[0] == "" && names[1] == rest;
  }
}
