/**
 * The storefront's product search: the `filteredProducts` memo of the
 * search component, a pure function of the product list and the query.
 */
module ProductSearch {
  import opened Wrappers

  datatype Product = Product(id: string, name: string, price: real, image: Option<string>)

  /** The characters `String.prototype.trim` removes: white space and line terminators. */
  predicate IsTrimmable(c: char) {
    var n := c as int;
    n == 0x09 || n == 0x0A || n == 0x0B || n == 0x0C || n == 0x0D || n == 0x20
    || n == 0xA0 || n == 0x1680 || (0x2000 <= n <= 0x200A) || n == 0x2028 || n == 0x2029
    || n == 0x202F || n == 0x205F || n == 0x3000 || n == 0xFEFF
  }

  function TrimStart(s: string): (r: string)
    ensures |r| <= |s| && r == s[|s| - |r|..]
    ensures r != [] ==> !IsTrimmable(r[0])
  {
    if s != [] && IsTrimmable(s[0]) then TrimStart(s[1..]) else s
  }

  function TrimEnd(s: string): (r: string)
    ensures |r| <= |s| && r == s[..|r|]
    ensures r != [] ==> !IsTrimmable(r[|r| - 1])
  {
    if s != [] && IsTrimmable(s[|s| - 1]) then TrimEnd(s[..|s| - 1]) else s
  }

  /** `trim()`: the string without leading and trailing white space. */
  function Trim(s: string): (r: string)
    ensures |r| <= |s| && Includes(s, r)
    ensures r != [] ==> !IsTrimmable(r[0]) && !IsTrimmable(r[|r| - 1])
  {
    TrimEnd(TrimStart(s))
  }

  /** A query is blank after trimming exactly when every character of it is white space. */
  lemma {:induction false} TrimEmptyIffBlank(s: string)
    ensures Trim(s) == [] <==> forall i :: 0 <= i < |s| ==> IsTrimmable(s[i])
  {
    if s != [] {
      if IsTrimmable(s[0]) {
        TrimEmptyIffBlank(s[1..]);
        assert forall i :: 1 <= i < |s| ==> s[i] == s[1..][i - 1];
      } else {
        assert TrimStart(s) == s;
        var e := TrimEnd(s);
        if e == [] {
          TrimEndEmpty(s);
        }
      }
    }
  }

  lemma {:induction false} TrimEndEmpty(s: string)
    requires TrimEnd(s) == []
    ensures forall i :: 0 <= i < |s| ==> IsTrimmable(s[i])
  {
    if s != [] {
      TrimEndEmpty(s[..|s| - 1]);
      assert forall i :: 0 <= i < |s| - 1 ==> s[i] == s[..|s| - 1][i];
    }
  }

  /**
   * `toLowerCase` on one character: ASCII and Latin-1 capitals map to
   * their small letters, everything else is unchanged.
   */
  function LowerChar(c: char): (l: char)
    ensures !('A' <= l <= 'Z')
  {
    var n := c as int;
    if 0x41 <= n <= 0x5A || (0xC0 <= n <= 0xDE && n != 0xD7) then (n + 0x20) as char else c
  }

  function ToLower(s: string): (r: string)
    ensures |r| == |s|
    ensures forall i :: 0 <= i < |s| ==> r[i] == LowerChar(s[i])
  {
    if s == [] then [] else [LowerChar(s[0])] + ToLower(s[1..])
  }

  /** `includes`: `t` occurs in `s` as a contiguous piece. */
  function Includes(s: string, t: string): (b: bool)
    ensures b <==> exists i :: 0 <= i <= |s| && t <= s[i..]
  {
    if t <= s then
      assert s[0..] == s;
      true
    else if s == [] then false
    else
      assert forall i :: 1 <= i <= |s| ==> s[i..] == s[1..][i - 1..];
      Includes(s[1..], t)
  }

  /** The filter's test, with the query lower-cased but not trimmed. */
  predicate NameMatches(p: Product, query: string)
    ensures query == [] ==> NameMatches(p, query)
    ensures NameMatches(p, query) ==> |query| <= |p.name|
  {
    Includes(ToLower(p.name), ToLower(query))
  }

  /** `products.filter(...)`: the matching products, in their original order. */
  function FilterByName(products: seq<Product>, query: string): (r: seq<Product>)
    ensures forall p :: p in r <==> p in products && NameMatches(p, query)
    ensures forall p :: multiset(r)[p] == if NameMatches(p, query) then multiset(products)[p] else 0
    ensures IsSubsequence(r, products)
  {
    if products == [] then []
    else
      var rest := FilterByName(products[1..], query);
      assert products == [products[0]] + products[1..];
      assert multiset(products) == multiset{products[0]} + multiset(products[1..]);
      if NameMatches(products[0], query) then
        assert multiset([products[0]] + rest) == multiset{products[0]} + multiset(rest);
        [products[0]] + rest
      else rest
  }

  /** `a` is `b` with some elements left out, the rest kept in order. */
  predicate IsSubsequence<T(==)>(a: seq<T>, b: seq<T>) {
    if a == [] then true
    else if b == [] then false
    else (a[0] == b[0] && IsSubsequence(a[1..], b[1..])) || IsSubsequence(a, b[1..])
  }

  /** A subsequence is no longer than, and repeats nothing more often than, what it was taken from. */
  lemma {:induction false} SubsequenceBounds<T>(a: seq<T>, b: seq<T>)
    requires IsSubsequence(a, b)
    ensures |a| <= |b|
    ensures multiset(a) <= multiset(b)
  {
    if a != [] {
      assert b == [b[0]] + b[1..];
      if a[0] == b[0] && IsSubsequence(a[1..], b[1..]) {
        SubsequenceBounds(a[1..], b[1..]);
        assert a == [a[0]] + a[1..];
      } else {
        SubsequenceBounds(a, b[1..]);
      }
    }
  }

  /**
   * `filteredProducts`: the product list itself when the query is blank
   * after trimming, otherwise the products whose lower-cased name contains
   * the lower-cased query.
   */
  function Search(products: seq<Product>, query: string): (r: seq<Product>)
    ensures Trim(query) == [] ==> r == products
    ensures Trim(query) != [] ==> forall p :: p in r <==> p in products && NameMatches(p, query)
    ensures Trim(query) != [] ==>
              forall p :: multiset(r)[p] == if NameMatches(p, query) then multiset(products)[p] else 0
    ensures IsSubsequence(r, products)
  {
    if Trim(query) == [] then
      SubsequenceOfItself(products);
      products
    else FilterByName(products, query)
  }

  lemma {:induction false} SubsequenceOfItself<T>(s: seq<T>)
    ensures IsSubsequence(s, s)
  {
    if s != [] {
      SubsequenceOfItself(s[1..]);
    }
  }

  /** The result never grows the list and never repeats a product more often than the input does. */
  lemma SearchBounds(products: seq<Product>, query: string)
    ensures |Search(products, query)| <= |products|
    ensures multiset(Search(products, query)) <= multiset(products)
  {
    SubsequenceBounds(Search(products, query), products);
  }

  lemma {:induction false} FilterIdempotent(products: seq<Product>, query: string)
    ensures FilterByName(FilterByName(products, query), query) == FilterByName(products, query)
  {
    if products != [] {
      FilterIdempotent(products[1..], query);
      if NameMatches(products[0], query) {
        var r := FilterByName(products, query);
        assert r[0] == products[0] && r[1..] == FilterByName(products[1..], query);
      }
    }
  }

  /** Searching the result again with the same query changes nothing. */
  lemma SearchIdempotent(products: seq<Product>, query: string)
    ensures Search(Search(products, query), query) == Search(products, query)
  {
    if Trim(query) != [] {
      FilterIdempotent(products, query);
    }
  }

  /**
   * Only the blank test trims: a query with a leading space is matched with
   * that space, so it misses a name that starts with the query's word.
   */
  lemma UntrimmedQueryMisses()
    ensures Search([Product("1", "Amethyst", 10.0, None)], " amethyst") == []
  {
    var query := " amethyst";
    assert !IsTrimmable(query[1]);
    TrimEmptyIffBlank(query);
    var p := Product("1", "Amethyst", 10.0, None);
    assert |ToLower(p.name)| < |ToLower(query)|;
    assert !NameMatches(p, query);
  }
}
