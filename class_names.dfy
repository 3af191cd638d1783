/**
  Class-name composition: the `cn` utility (`classes.filter(Boolean).join(' ')`)
  and the three presentational components that build their class strings with it
  from total variant/size lookup tables.
*/
module ClassNames {

  /** `filter(Boolean)` on strings: keeps the non-empty ones, in order. */
  function Compact(classes: seq<string>): (r: seq<string>)
    ensures |r| <= |classes|
    ensures forall k :: 0 <= k < |r| ==> r[k] != ""
    ensures forall x :: x in r <==> x in classes && x != ""
    ensures r == [] <==> forall k :: 0 <= k < |classes| ==> classes[k] == ""
  {
    if classes == [] then []
    else (if classes[0] == "" then [] else [classes[0]]) + Compact(classes[1..])
  }

  /**
    `Array.prototype.join(sep)`: the parts with `sep` between neighbours. The result
    starts with the first part and ends with the last.
  */
  function Join(parts: seq<string>, sep: string): (r: string)
    ensures parts == [] ==> r == ""
    ensures parts != [] ==> parts[0] <= r
    ensures parts != [] ==> |parts[|parts| - 1]| <= |r| && r[|r| - |parts[|parts| - 1]|..] == parts[|parts| - 1]
  {
    if parts == [] then ""
    else if |parts| == 1 then parts[0]
    else
      var rest := Join(parts[1..], sep);
      assert (parts[0] + sep + rest)[|parts[0] + sep|..] == rest;
      parts[0] + sep + rest
  }

  /** `String.prototype.split(c)` for a one-character separator; the partner of `Join`. */
  function Split(s: string, c: char): (r: seq<string>)
    ensures |r| >= 1
  {
    if s == [] then [""]
    else
      var rest := Split(s[1..], c);
      if s[0] == c then [""] + rest
      else [[s[0]] + rest[0]] + rest[1..]
  }

  /** The `cn` utility. */
  function Cn(classes: seq<string>): (r: string)
    ensures r == "" <==> forall k :: 0 <= k < |classes| ==> classes[k] == ""
  {
    JoinNonEmpty(Compact(classes), " ");
    Join(Compact(classes), " ")
  }

  lemma {:induction false} JoinNonEmpty(parts: seq<string>, sep: string)
    requires forall k :: 0 <= k < |parts| ==> parts[k] != ""
    ensures Join(parts, sep) == "" <==> parts == []
  {
    if |parts| > 1 {
      assert |Join(parts, sep)| >= |parts[0]| > 0;
    }
  }

  /** Filtering distributes over concatenation: `filter` looks at each argument on its own. */
  lemma {:induction false} CompactAppend(xs: seq<string>, ys: seq<string>)
    ensures Compact(xs + ys) == Compact(xs) + Compact(ys)
  {
    if xs == [] {
      assert xs + ys == ys;
    } else {
      assert (xs + ys)[1..] == xs[1..] + ys;
      CompactAppend(xs[1..], ys);
    }
  }

  lemma {:induction false} JoinAppend(parts: seq<string>, p: string, sep: string)
    requires parts != []
    ensures Join(parts + [p], sep) == Join(parts, sep) + sep + p
  {
    if |parts| == 1 {
      assert parts + [p] == [parts[0], p];
    } else {
      assert (parts + [p])[1..] == parts[1..] + [p];
      JoinAppend(parts[1..], p, sep);
      ConcatAssoc(parts[0] + sep, Join(parts[1..], sep), sep, p);
    }
  }

  lemma ConcatAssoc(a: string, b: string, c: string, d: string)
    ensures a + (b + c + d) == a + b + c + d
  {
  }

  /**
    Appending one argument to `cn`: an empty one changes nothing; a non-empty one is
    added after a single space, or alone when everything before it was empty.
  */
  lemma CnAppend(xs: seq<string>, y: string)
    ensures Cn(xs + [y]) ==
      if y == "" then Cn(xs)
      else if Cn(xs) == "" then y
      else Cn(xs) + " " + y
  {
    CompactAppend(xs, [y]);
    assert Compact([y]) == if y == "" then [] else [y];
    if y != "" {
      if Compact(xs) == [] {
        assert Compact(xs + [y]) == [y];
      } else {
        JoinNonEmpty(Compact(xs), " ");
        JoinAppend(Compact(xs), y, " ");
      }
    } else {
      assert Compact(xs + [y]) == Compact(xs);
    }
  }

  lemma {:induction false} SplitNoSeparator(a: string, c: char)
    requires c !in a
    ensures Split(a, c) == [a]
  {
    if a != [] {
      SplitNoSeparator(a[1..], c);
      assert [a[0]] + a[1..] == a;
    }
  }

  lemma {:induction false} SplitAtSeparator(a: string, b: string, c: char)
    requires c !in a
    ensures Split(a + [c] + b, c) == [a] + Split(b, c)
  {
    if a == [] {
      assert (a + [c] + b)[1..] == b;
    } else {
      assert (a + [c] + b)[1..] == a[1..] + [c] + b;
      SplitAtSeparator(a[1..], b, c);
      assert [a[0]] + a[1..] == a;
    }
  }

  /** Splitting undoes joining when no part contains the separator. */
  lemma {:induction false} SplitJoin(parts: seq<string>, c: char)
    requires parts != []
    requires forall k :: 0 <= k < |parts| ==> c !in parts[k]
    ensures Split(Join(parts, [c]), c) == parts
  {
    if |parts| == 1 {
      SplitNoSeparator(parts[0], c);
    } else {
      SplitJoin(parts[1..], c);
      SplitAtSeparator(parts[0], Join(parts[1..], [c]), c);
      assert [parts[0]] + parts[1..] == parts;
    }
  }

  /**
    For space-free class names, the class list `cn` builds, read back word by word,
    is exactly the non-empty arguments in their original order.
  */
  lemma CnWords(classes: seq<string>)
    requires forall k :: 0 <= k < |classes| ==> ' ' !in classes[k]
    requires exists k :: 0 <= k < |classes| && classes[k] != ""
    ensures Split(Cn(classes), ' ') == Compact(classes)
  {
    var k :| 0 <= k < |classes| && classes[k] != "";
    assert classes[k] in Compact(classes);
    forall j | 0 <= j < |Compact(classes)|
      ensures ' ' !in Compact(classes)[j]
    {
      assert Compact(classes)[j] in classes;
    }
    SplitJoin(Compact(classes), ' ');
  }

  // Button

  datatype ButtonVariant = DefaultButton | OutlineButton | GhostButton
  datatype ButtonSize = DefaultSize | Small | Large

  const ButtonBase: string :=
    "inline-flex items-center justify-center whitespace-nowrap rounded-md text-sm font-medium transition-colors focus-visible:outline-none disabled:pointer-events-none disabled:opacity-50"

  function ButtonVariantClass(v: ButtonVariant): string
  {
    match v
    case DefaultButton => "btn-primary"
    case OutlineButton => "btn-outline border"
    case GhostButton => "btn-ghost hover:bg-accent"
  }

  function ButtonSizeClass(s: ButtonSize): string
  {
    match s
    case DefaultSize => "h-10 px-4 py-2"
    case Small => "h-9 px-3"
    case Large => "h-11 px-8"
  }

  /**
    A button's class string: the base, its variant's and its size's classes, in that
    order, separated by single spaces; a caller's `className` is appended only when
    non-empty.
  */
  function ButtonClass(v: ButtonVariant, s: ButtonSize, className: string): (r: string)
    ensures r == ButtonBase + " " + ButtonVariantClass(v) + " " + ButtonSizeClass(s)
                 + (if className == "" then "" else " " + className)
  {
    CnOfFixedThree(ButtonBase, ButtonVariantClass(v), ButtonSizeClass(s), className);
    Cn([ButtonBase, ButtonVariantClass(v), ButtonSizeClass(s), className])
  }

  /** `cn` of three non-empty classes and an optional one. */
  lemma CnOfFixedThree(base: string, variant: string, size: string, className: string)
    requires base != "" && variant != "" && size != ""
    ensures Cn([base, variant, size, className]) ==
      base + " " + variant + " " + size + (if className == "" then "" else " " + className)
  {
    CnSingle(base);
    assert [base] + [variant] == [base, variant];
    CnSnoc([base], variant, base);
    assert [base, variant] + [size] == [base, variant, size];
    CnSnoc([base, variant], size, base + " " + variant);
    assert [base, variant, size] + [className] == [base, variant, size, className];
    CnAppend([base, variant, size], className);
  }

  // Card

  const CardBase: string := "card-base rounded-lg border shadow-sm"

  /** A card's class string: its base classes, plus `className` only when non-empty. */
  function CardClass(className: string): (r: string)
    ensures r == CardBase + (if className == "" then "" else " " + className)
  {
    CnSingle(CardBase);
    assert [CardBase] + [className] == [CardBase, className];
    CnAppend([CardBase], className);
    Cn([CardBase, className])
  }

  // Badge

  datatype BadgeVariant = DefaultBadge | SecondaryBadge | OutlineBadge

  const BadgeBase: string :=
    "inline-flex items-center rounded-full px-2.5 py-0.5 text-xs font-semibold"

  function BadgeVariantClass(v: BadgeVariant): string
  {
    match v
    case DefaultBadge => "badge-default"
    case SecondaryBadge => "badge-secondary"
    case OutlineBadge => "badge-outline border"
  }

  /** A badge's class string: base and variant class, plus `className` only when non-empty. */
  function BadgeClass(v: BadgeVariant, className: string): (r: string)
    ensures r == BadgeBase + " " + BadgeVariantClass(v) + (if className == "" then "" else " " + className)
  {
    CnOfFixedTwo(BadgeBase, BadgeVariantClass(v), className);
    Cn([BadgeBase, BadgeVariantClass(v), className])
  }

  /** `cn` of a single non-empty class is that class. */
  lemma CnSingle(x: string)
    requires x != ""
    ensures Cn([x]) == x
  {
    assert [] + [x] == [x];
    CnAppend([], x);
  }

  /** A non-empty class after a non-empty `cn` result is appended after one space. */
  lemma CnSnoc(xs: seq<string>, y: string, e: string)
    requires Cn(xs) == e && e != "" && y != ""
    ensures Cn(xs + [y]) == e + " " + y
  {
    CnAppend(xs, y);
  }

  /** `cn` of two non-empty classes and an optional one. */
  lemma CnOfFixedTwo(base: string, variant: string, className: string)
    requires base != "" && variant != ""
    ensures Cn([base, variant, className]) ==
      base + " " + variant + (if className == "" then "" else " " + className)
  {
    CnSingle(base);
    assert [base] + [variant] == [base, variant];
    CnSnoc([base], variant, base);
    assert [base, variant] + [className] == [base, variant, className];
    CnAppend([base, variant], className);
  }
}
