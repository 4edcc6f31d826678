/** Decimal numerals and ordered lists of names. */
module Text {
  import opened Wrappers

  function Digit(value: nat): char
    requires value < 10
  {
    ('0' as int + value) as char
  }

  /** The usual decimal numeral, without leading zeros. */
  function Decimal(value: nat): (text: string)
    ensures |text| > 0 && forall c | c in text :: '0' <= c <= '9'
  {
    if value < 10 then [Digit(value)] else Decimal(value / 10) + [Digit(value % 10)]
  }

  function ParseDecimal(text: string): Option<nat> {
    if text == [] then None
    else
      var last := text[|text| - 1];
      var rest := text[..|text| - 1];
      if !('0' <= last <= '9') then None
      else if rest == [] then Some(last as int - '0' as int)
      else match ParseDecimal(rest)
        case None => None
        case Some(high) => Some(10 * high + (last as int - '0' as int))
  }

  lemma {:induction false} ParseOfDecimal(value: nat)
    ensures ParseDecimal(Decimal(value)) == Some(value)
  {
    if value < 10 {
      assert Decimal(value)[..0] == [];
    } else {
      ParseOfDecimal(value / 10);
      assert Decimal(value)[..|Decimal(value)| - 1] == Decimal(value / 10);
    }
  }

  lemma {:induction false} DecimalIsInjective(left: nat, right: nat)
    requires Decimal(left) == Decimal(right)
    ensures left == right
  {
    ParseOfDecimal(left);
    ParseOfDecimal(right);
  }

  /** Lexicographic order, the order of an ordered set of names. */
  predicate Less(left: string, right: string) {
    right != [] &&
    (left == [] || left[0] < right[0] || (left[0] == right[0] && Less(left[1..], right[1..])))
  }

  lemma {:induction false} LessIsTotal(left: string, right: string)
    ensures Less(left, right) || left == right || Less(right, left)
    ensures !(Less(left, right) && Less(right, left)) && !Less(left, left)
  {
    if left != [] && right != [] && left[0] == right[0] {
      LessIsTotal(left[1..], right[1..]);
      assert left == [left[0]] + left[1..] && right == [right[0]] + right[1..];
    }
    if left != [] {
      LessIsTotal(left[1..], left[1..]);
    }
  }

  lemma {:induction false} LessIsTransitive(a: string, b: string, c: string)
    requires Less(a, b) && Less(b, c)
    ensures Less(a, c)
  {
    if a != [] && a[0] == b[0] == c[0] {
      LessIsTransitive(a[1..], b[1..], c[1..]);
    }
  }

  ghost predicate Ascending(names: seq<string>) {
    forall i, j | 0 <= i < j < |names| :: Less(names[i], names[j])
  }

  function Insert(name: string, names: seq<string>): seq<string> {
    if names == [] then [name]
    else if Less(name, names[0]) then [name] + names
    else if name == names[0] then names
    else [names[0]] + Insert(name, names[1..])
  }

  /** The names in order, each once. */
  function Ordered(names: seq<string>): seq<string> {
    if names == [] then [] else Insert(names[0], Ordered(names[1..]))
  }

  lemma {:induction false} InsertKeepsOrder(name: string, names: seq<string>)
    requires Ascending(names)
    ensures Ascending(Insert(name, names))
    ensures forall n :: n in Insert(name, names) <==> n == name || n in names
  {
    if names != [] {
      LessIsTotal(name, names[0]);
      if Less(name, names[0]) {
        forall j | 0 < j < |names| ensures Less(name, names[j]) {
          LessIsTransitive(name, names[0], names[j]);
        }
      } else if name != names[0] {
        InsertKeepsOrder(name, names[1..]);
        var tail := Insert(name, names[1..]);
        assert forall n | n in tail :: n == name || n in names[1..];
        forall j | 0 <= j < |tail| ensures Less(names[0], tail[j]) {
          assert tail[j] in tail;
        }
        assert names == [names[0]] + names[1..];
      }
    }
  }

  lemma {:induction false} OrderedIsAscending(names: seq<string>)
    ensures Ascending(Ordered(names))
    ensures forall n :: n in Ordered(names) <==> n in names
  {
    if names != [] {
      OrderedIsAscending(names[1..]);
      InsertKeepsOrder(names[0], Ordered(names[1..]));
      assert names == [names[0]] + names[1..];
    }
  }

  lemma {:induction false} HeadIsNotInTail(names: seq<string>)
    requires names != [] && Ascending(names)
    ensures names[0] !in names[1..]
  {
    LessIsTotal(names[0], names[0]);
  }

  /** An ordered list of names is determined by the set of its members. */
  lemma {:induction false} AscendingIsUnique(left: seq<string>, right: seq<string>)
    requires Ascending(left) && Ascending(right)
    requires forall n :: n in left <==> n in right
    ensures left == right
  {
    assert left != [] ==> left[0] in left;
    assert right != [] ==> right[0] in right;
    if left != [] {
      LessIsTotal(left[0], right[0]);
      assert left[0] == right[0];
      forall n
        ensures n in left[1..] <==> n in right[1..]
      {
        HeadIsNotInTail(left);
        HeadIsNotInTail(right);
        assert n in left <==> n == left[0] || n in left[1..];
        assert n in right <==> n == right[0] || n in right[1..];
      }
      AscendingIsUnique(left[1..], right[1..]);
    }
  }
}
