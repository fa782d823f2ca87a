/**
 * The batch INSERT statement builder of `multipleInsert`: one statement with
 * one `(?, ?)` placeholder group per product, and the flat list of values to
 * bind to those placeholders, name then price for each product in order.
 */
module BatchInsert {
  import opened Strings
  import opened Products

  /** Fixed head of every batch statement; it ends before the VALUES rows. */
  const InsertPrefix: string := "INSERT INTO product(product_name, product_price) VALUES "
  /** The placeholder group appended once per product. */
  const PlaceholderGroup: string := "(?, ?)"
  /** What `strings.Join` puts between two groups. */
  const GroupSeparator: string := ","
  /** Statement text of the single-row `insert`. */
  const SingleInsertQuery: string := "INSERT INTO product(product_name, product_price) VALUES (?, ?)"

  /** A statement text together with the values bound to its placeholders. */
  datatype Statement = Statement(query: string, args: seq<Param>)

  // ---------------------------------------------------------------------------
  // Functional specification
  // ---------------------------------------------------------------------------

  /** Every product's name and price, product after product. */
  function BindList(ps: seq<Product>): (r: seq<Param>)
    ensures |r| == 2 * |ps|
  {
    if ps == [] then [] else RowParams(ps[0]) + BindList(ps[1..])
  }

  /** The rows part of the VALUES clause for `n` products. */
  function ValuesClause(n: nat): string {
    Join(Repeat(PlaceholderGroup, n), GroupSeparator)
  }

  /** The statement the builder produces for `ps`. */
  function BatchStatement(ps: seq<Product>): Statement {
    Statement(InsertPrefix + ValuesClause(|ps|), BindList(ps))
  }

  /** The statement and arguments the single-row `insert` executes for `p`. */
  function SingleInsert(p: Product): Statement {
    Statement(SingleInsertQuery, RowParams(p))
  }

  /** Number of positional placeholders in a statement text. */
  function Placeholders(s: string): nat {
    Count('?', s)
  }

  /** Group number `k` of a values clause starts at offset 7k (six characters and a comma per group). */
  predicate GroupAt(s: string, k: nat) {
    7 * k + 6 <= |s| && s[7 * k..7 * k + 6] == PlaceholderGroup
  }

  /** A single comma follows group number `k`. */
  predicate SeparatorAt(s: string, k: nat) {
    7 * k + 6 < |s| && s[7 * k + 6] == ','
  }

  /**
   * Reads a bind list back two values at a time into products; `None` when
   * it is not a sequence of (text, integer) pairs.
   */
  function UnbindRows(args: seq<Param>): Option<seq<Product>> {
    if args == [] then Some([])
    else if |args| >= 2 && args[0].PText? && args[1].PInt? then
      match UnbindRows(args[2..])
      case Some(rest) => Some([Product(args[0].text, args[1].value)] + rest)
      case None => None
    else None
  }

  // ---------------------------------------------------------------------------
  // The builder, as the program runs it
  // ---------------------------------------------------------------------------

  /**
   * Builds the statement text and the bound values for inserting `products`
   * in one round trip. An empty `products` yields the bare prefix, whose
   * VALUES clause has no rows.
   */
  method BuildBatchInsert(products: seq<Product>) returns (query: string, params: seq<Param>)
    ensures Statement(query, params) == BatchStatement(products)
    ensures |params| == 2 * |products|
    ensures forall i :: 0 <= i < |products| ==>
              params[2 * i] == PText(products[i].name) && params[2 * i + 1] == PInt(products[i].price)
    ensures Placeholders(query) == |params|
    ensures products == [] ==> query == InsertPrefix && params == []
  {
    query := InsertPrefix;
    var inserts: seq<string> := [];
    params := [];
    for i := 0 to |products|
      invariant inserts == Repeat(PlaceholderGroup, i)
      invariant params == BindList(products[..i])
    {
      var v := products[i];
      assert products[..i + 1] == products[..i] + [v];
      BindListSnoc(products[..i], v);
      inserts := inserts + [PlaceholderGroup];
      params := params + [PText(v.name), PInt(v.price)];
    }
    assert products[..|products|] == products;
    var queryVals := Join(inserts, GroupSeparator);
    query := query + queryVals;
    forall i | 0 <= i < |products|
      ensures params[2 * i] == PText(products[i].name) && params[2 * i + 1] == PInt(products[i].price)
    {
      BindListAt(products, i);
    }
    PlaceholdersMatchParams(products);
  }

  // ---------------------------------------------------------------------------
  // The bind list
  // ---------------------------------------------------------------------------

  /** Appending a product to the input appends its name and price to the bind list. */
  lemma {:induction false} BindListSnoc(ps: seq<Product>, p: Product)
    ensures BindList(ps + [p]) == BindList(ps) + RowParams(p)
  {
    if ps == [] {
      assert ps + [p] == [p];
    } else {
      assert (ps + [p])[0] == ps[0];
      assert (ps + [p])[1..] == ps[1..] + [p];
      BindListSnoc(ps[1..], p);
    }
  }

  /** Position 2i holds the name and 2i+1 the price of product i. */
  lemma {:induction false} BindListAt(ps: seq<Product>, i: nat)
    requires i < |ps|
    ensures BindList(ps)[2 * i] == PText(ps[i].name)
    ensures BindList(ps)[2 * i + 1] == PInt(ps[i].price)
  {
    if i > 0 {
      BindListAt(ps[1..], i - 1);
    }
  }

  /** The bind list loses nothing: read back in pairs it gives exactly the input products, in order. */
  lemma {:induction false} UnbindBindList(ps: seq<Product>)
    ensures UnbindRows(BindList(ps)) == Some(ps)
  {
    if ps != [] {
      var args := BindList(ps);
      assert args[2..] == BindList(ps[1..]);
      UnbindBindList(ps[1..]);
      assert ps == [ps[0]] + ps[1..];
    }
  }

  // ---------------------------------------------------------------------------
  // The VALUES clause
  // ---------------------------------------------------------------------------

  /** The placeholder group holds two placeholders, at offsets 1 and 4. */
  lemma GroupPlaceholders()
    ensures Count('?', PlaceholderGroup) == 2
    ensures Count('?', PlaceholderGroup[..1]) == 0
    ensures Count('?', PlaceholderGroup[..4]) == 1
    ensures PlaceholderGroup[1] == '?' && PlaceholderGroup[4] == '?'
  {
    var g := PlaceholderGroup;
    assert g[..1] == "(";
    assert g[..4] == "(?" + ", ";
    CountConcat('?', "(?", ", ");
  }

  /** One more product adds a comma and one more group at the end. */
  lemma ValuesClauseSnoc(n: nat)
    requires n >= 1
    ensures ValuesClause(n + 1) == ValuesClause(n) + GroupSeparator + PlaceholderGroup
  {
    var gs := Repeat(PlaceholderGroup, n);
    assert Repeat(PlaceholderGroup, n + 1) == gs + [PlaceholderGroup];
    JoinConcat(gs, [PlaceholderGroup], GroupSeparator);
  }

  /**
   * Exact shape of the rows part: empty for no products; otherwise 7n-1
   * characters made of n placeholder groups, group k at offset 7k, with a
   * single comma between neighbours, hence no leading and no trailing comma.
   */
  lemma {:induction false} ValuesClauseLayout(n: nat)
    ensures n == 0 ==> ValuesClause(n) == ""
    ensures n > 0 ==> |ValuesClause(n)| == 7 * n - 1
    ensures forall k: nat :: k < n ==> GroupAt(ValuesClause(n), k)
    ensures forall k: nat :: k + 1 < n ==> SeparatorAt(ValuesClause(n), k)
  {
    if n == 1 {
      assert ValuesClause(1) == PlaceholderGroup;
      assert GroupAt(ValuesClause(1), 0);
    } else if n > 1 {
      var v := ValuesClause(n - 1);
      ValuesClauseLayout(n - 1);
      ValuesClauseLength(n - 1);
      ValuesClauseSnoc(n - 1);
      var w := v + GroupSeparator + PlaceholderGroup;
      assert |w| == 7 * n - 1;
      forall k: nat | k < n ensures GroupAt(w, k) {
        if k < n - 1 {
          assert GroupAt(v, k);
          assert w[7 * k..7 * k + 6] == v[7 * k..7 * k + 6];
        } else {
          assert w[7 * k..7 * k + 6] == PlaceholderGroup;
        }
      }
      forall k: nat | k + 1 < n ensures SeparatorAt(w, k) {
        if k + 2 < n {
          assert SeparatorAt(v, k);
          assert w[7 * k + 6] == v[7 * k + 6];
        } else {
          assert 7 * k + 6 == |v|;
        }
      }
    }
  }

  /** The rows part for n products holds 2n placeholders. */
  lemma {:induction false} ValuesClausePlaceholders(n: nat)
    ensures Count('?', ValuesClause(n)) == 2 * n
  {
    GroupPlaceholders();
    if n > 1 {
      ValuesClausePlaceholders(n - 1);
      ValuesClauseSnoc(n - 1);
      CountConcat('?', ValuesClause(n - 1), GroupSeparator);
      CountConcat('?', ValuesClause(n - 1) + GroupSeparator, PlaceholderGroup);
    } else if n == 1 {
      assert ValuesClause(1) == PlaceholderGroup;
    }
  }

  /** The rows part for n ≥ 1 products is 7n-1 characters long: six per group, one per comma. */
  lemma {:induction false} ValuesClauseLength(n: nat)
    requires n >= 1
    ensures |ValuesClause(n)| == 7 * n - 1
  {
    if n == 1 {
      assert ValuesClause(1) == PlaceholderGroup;
    } else {
      ValuesClauseLength(n - 1);
      ValuesClauseSnoc(n - 1);
    }
  }

  /** Splitting the products into a first k and the rest splits the rows part at a comma. */
  lemma ValuesClauseSplit(n: nat, k: nat)
    requires 0 < k < n
    ensures ValuesClause(n) == ValuesClause(k) + (GroupSeparator + ValuesClause(n - k))
  {
    RepeatConcat(PlaceholderGroup, k, n - k);
    JoinConcat(Repeat(PlaceholderGroup, k), Repeat(PlaceholderGroup, n - k), GroupSeparator);
  }

  /** Before group k of the rows part stand exactly 2k placeholders. */
  lemma PlaceholdersBeforeGroup(n: nat, k: nat)
    requires k < n
    ensures 7 * k <= |ValuesClause(n)|
    ensures Count('?', ValuesClause(n)[..7 * k]) == 2 * k
  {
    ValuesClauseLength(n);
    if k > 0 {
      var rest := GroupSeparator + ValuesClause(n - k);
      ValuesClauseSplit(n, k);
      ValuesClauseLength(k);
      ValuesClausePlaceholders(k);
      CountTakeConcat('?', ValuesClause(k), rest, 1);
      assert rest[..1] == GroupSeparator;
    }
  }

  // ---------------------------------------------------------------------------
  // Properties of the whole statement
  // ---------------------------------------------------------------------------

  /** The fixed prefix holds no placeholder. */
  lemma PrefixHasNoPlaceholder()
    ensures Placeholders(InsertPrefix) == 0
  {
    QuestionMarkNotInPrefix();
    CountAbsent('?', InsertPrefix);
  }

  /** No `?` in the prefix, checked a word at a time. */
  lemma QuestionMarkNotInPrefix()
    ensures '?' !in InsertPrefix
  {
    QuestionMarkNotInTableAndName();
    assert '?' !in "INSERT INTO product(product_name, product_" by {
      assert "INSERT INTO product(product_name, product_" == "INSERT INTO product(product_name, " + "product_";
    }
    assert '?' !in "INSERT INTO product(product_name, product_price) " by {
      assert "INSERT INTO product(product_name, product_price) " == "INSERT INTO product(product_name, product_" + "price) ";
    }
    assert '?' !in InsertPrefix by {
      assert InsertPrefix == "INSERT INTO product(product_name, product_price) " + "VALUES ";
    }
  }

  /** The prefix up to and including the name column holds no `?`. */
  lemma QuestionMarkNotInTableAndName()
    ensures '?' !in "INSERT INTO product(product_name, "
  {
    assert '?' !in "INSERT ";
    assert '?' !in "INSERT INTO " by {
      assert "INSERT INTO " == "INSERT " + "INTO ";
    }
    assert '?' !in "INSERT INTO product(" by {
      assert "INSERT INTO product(" == "INSERT INTO " + "product(";
    }
    assert '?' !in "INSERT INTO product(product_" by {
      assert "INSERT INTO product(product_" == "INSERT INTO product(" + "product_";
    }
    assert '?' !in "INSERT INTO product(product_name, " by {
      assert "INSERT INTO product(product_name, " == "INSERT INTO product(product_" + "name, ";
    }
  }

  /** Every bound value has exactly one placeholder: the counts agree for every input. */
  lemma PlaceholdersMatchParams(ps: seq<Product>)
    ensures Placeholders(BatchStatement(ps).query) == |BatchStatement(ps).args|
    ensures |BatchStatement(ps).args| == 2 * |ps|
  {
    QuestionMarkNotInPrefix();
    ValuesClausePlaceholders(|ps|);
    CountAfterAbsent('?', InsertPrefix, ValuesClause(|ps|));
  }

  /** Inside the rows part, the placeholders of group k are numbers 2k and 2k+1, at offsets 7k+1 and 7k+4. */
  lemma ValuesClauseAlignment(n: nat, k: nat)
    requires k < n
    ensures var v := ValuesClause(n);
      && 7 * k + 4 < |v|
      && v[7 * k + 1] == '?' && Count('?', v[..7 * k + 1]) == 2 * k
      && v[7 * k + 4] == '?' && Count('?', v[..7 * k + 4]) == 2 * k + 1
  {
    ValuesClauseLayout(n);
    assert GroupAt(ValuesClause(n), k);
    PlaceholdersBeforeGroup(n, k);
    GroupAlignment(ValuesClause(n), 7 * k);
  }

  /** Wherever a placeholder group stands, its two `?` are at offsets 1 and 4. */
  lemma GroupAlignment(s: string, j: nat)
    requires j + 6 <= |s| && s[j..j + 6] == PlaceholderGroup
    ensures s[j + 1] == '?' && Count('?', s[..j + 1]) == Count('?', s[..j])
    ensures s[j + 4] == '?' && Count('?', s[..j + 4]) == Count('?', s[..j]) + 1
  {
    var group := s[j..j + 6];
    GroupPlaceholders();
    assert s[j..j + 1] == group[..1];
    assert s[j..j + 4] == group[..4];
    CountTake('?', s, j, j + 1);
    CountTake('?', s, j, j + 4);
    assert s[j + 1] == group[1];
    assert s[j + 4] == group[4];
  }

  /**
   * Positional alignment: counting placeholders from 0, number 2k is the
   * second character of group k and receives the name of product k, and
   * number 2k+1 is the fifth character of group k and receives its price.
   */
  lemma PlaceholderAlignment(ps: seq<Product>, k: nat)
    requires k < |ps|
    ensures |InsertPrefix| + 7 * k + 4 < |BatchStatement(ps).query|
    ensures BatchStatement(ps).query[|InsertPrefix| + 7 * k + 1] == '?'
    ensures Placeholders(BatchStatement(ps).query[..|InsertPrefix| + 7 * k + 1]) == 2 * k
    ensures BatchStatement(ps).args[2 * k] == PText(ps[k].name)
    ensures BatchStatement(ps).query[|InsertPrefix| + 7 * k + 4] == '?'
    ensures Placeholders(BatchStatement(ps).query[..|InsertPrefix| + 7 * k + 4]) == 2 * k + 1
    ensures BatchStatement(ps).args[2 * k + 1] == PInt(ps[k].price)
  {
    QuestionMarkNotInPrefix();
    ValuesClauseAlignment(|ps|, k);
    PrefixedAlignment(InsertPrefix, ValuesClause(|ps|), k);
    BindListAt(ps, k);
  }

  /** Placeholders of a text `v` keep their numbers when a `?`-free head is put in front. */
  lemma PrefixedAlignment(head: string, v: string, k: nat)
    requires '?' !in head && 7 * k + 4 < |v|
    requires v[7 * k + 1] == '?' && Count('?', v[..7 * k + 1]) == 2 * k
    requires v[7 * k + 4] == '?' && Count('?', v[..7 * k + 4]) == 2 * k + 1
    ensures var q := head + v;
      && |head| + 7 * k + 4 < |q|
      && q[|head| + 7 * k + 1] == '?' && Count('?', q[..|head| + 7 * k + 1]) == 2 * k
      && q[|head| + 7 * k + 4] == '?' && Count('?', q[..|head| + 7 * k + 4]) == 2 * k + 1
  {
    PrefixedText(head, v, 7 * k + 1);
    PrefixedText(head, v, 7 * k + 4);
  }

  /** A character and a prefix count of `v` seen through a `?`-free head. */
  lemma PrefixedText(head: string, v: string, i: nat)
    requires '?' !in head && i < |v|
    ensures (head + v)[|head| + i] == v[i]
    ensures Count('?', (head + v)[..|head| + i]) == Count('?', v[..i])
  {
    CountTakeConcat('?', head, v, i);
    CountAbsent('?', head);
  }

  /**
   * The statement text depends only on how many products there are; the
   * bound values are equal only for equal inputs.
   */
  lemma QueryDependsOnlyOnCount(a: seq<Product>, b: seq<Product>)
    requires |a| == |b|
    ensures BatchStatement(a).query == BatchStatement(b).query
    ensures BatchStatement(a).args == BatchStatement(b).args <==> a == b
  {
    UnbindBindList(a);
    UnbindBindList(b);
  }

  /** No products: the bare prefix, a VALUES clause with no rows, and nothing to bind. */
  lemma EmptyBatch()
    ensures BatchStatement([]) == Statement(InsertPrefix, [])
    ensures Placeholders(BatchStatement([]).query) == 0
  {
    assert BatchStatement([]).query == InsertPrefix + "";
    assert InsertPrefix + "" == InsertPrefix;
    PrefixHasNoPlaceholder();
  }

  /** For one product the batch statement is exactly the single-row insert. */
  lemma SingleProductIsSingleInsert(p: Product)
    ensures BatchStatement([p]) == SingleInsert(p)
  {
    assert ValuesClause(1) == PlaceholderGroup;
    assert InsertPrefix + PlaceholderGroup == SingleInsertQuery;
  }

  /** The two-product batch of the demo program. */
  lemma DemoBatch()
    ensures BatchStatement([Product("Galaxy", 990), Product("iPad", 500)])
         == Statement(InsertPrefix + "(?, ?),(?, ?)",
                      [PText("Galaxy"), PInt(990), PText("iPad"), PInt(500)])
  {
    assert ValuesClause(1) == PlaceholderGroup;
    ValuesClauseSnoc(1);
    var ps := [Product("Galaxy", 990), Product("iPad", 500)];
    assert ps[1..] == [Product("iPad", 500)];
  }
}
