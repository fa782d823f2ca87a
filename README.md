# Batch insert statement builder and DSN formatter of the MySQL tutorial programs

The two programs `select/main.go` and `insert/main.go` connect to a MySQL
server, create an `ecommerce` database and a `product` table, and insert
products one at a time and in batches (`select` also reads them back). Their
first 155 lines are identical, so one model covers both files. Only two parts
are program logic rather than driver calls, and this project models those two:

- **the batch statement builder** in `multipleInsert`. For a list of products
  it builds one statement text: the prefix
  `INSERT INTO product(product_name, product_price) VALUES ` followed by one
  `(?, ?)` group per product, joined with `,`. It also builds the flat list of
  values bound to the placeholders: each product's name, then its price, in
  input order. `BatchInsert.BuildBatchInsert` keeps the source's loop, which
  appends to `inserts` and `params`, and then calls `strings.Join`. It is
  proved equal to the functional specification `BatchInsert.BatchStatement`.
  The lemmas about `BatchStatement` prove these facts:
  - the exact text shape;
  - the placeholder count;
  - which placeholder receives which value;
  - the empty-input case;
  - agreement with the single-row `insert` statement;
  - the two-product demo batch.
- **the DSN formatter** `dsn`, which fills `%s:%s@tcp(%s)/%s` with the
  compiled-in user, password and host and the given database name.
  `Dsn.DatabaseOf` reads the database name back out of a DSN. `Dsn.DsnRoundTrip`
  proves that it inverts `Dsn.Dsn`, in both directions.

Modules: `Strings` (Go's `strings.Join`, plus counting and repetition over
`seq`), `Products` (the `product` record, and `Param`, a tagged value for the
untyped `[]interface{}` bind list), `BatchInsert`, and `Dsn`.

Empty input is reproduced as the code has it, with no guard. It yields the
bare prefix, a VALUES clause with no rows (malformed SQL), and an empty bind
list (`BatchInsert.EmptyBatch`). The code never rejects empty input, so the
model does not reject it either.

A reading note for `PlaceholderAlignment`: the MySQL driver binds the j-th `?`
of the text (counting from 0) to the j-th value of the list. Counting the `?`
that come before a position therefore says which value that placeholder gets.

## Model

| member | source | states |
|---|---|---|
| BatchInsert.BuildBatchInsert | select/main.go:124-133 | The loop and the join give exactly `BatchStatement(products)`. The list has 2·n values; value 2i is product i's name and value 2i+1 its price. The text holds as many `?` as there are values. Empty input gives the bare prefix and no values. The result depends only on the input, so two calls agree. |
| BatchInsert.BindList | select/main.go:127-131 | The bind list of n products has exactly 2·n values. |
| BatchInsert.BindListSnoc | select/main.go:130 | Appending one product to the input appends its name and then its price to the bind list. |
| BatchInsert.BindListAt | select/main.go:128-131 | For every i, value 2i is `PText(name of product i)` and value 2i+1 is `PInt(price of product i)`: the list interleaves by product, not by field. |
| BatchInsert.UnbindBindList | select/main.go:128-131 | Reading the bind list back two values at a time gives exactly the input products, in order. Nothing is dropped, duplicated or reordered. |
| BatchInsert.GroupPlaceholders | select/main.go:129 | The group `(?, ?)` holds exactly two `?`, at offsets 1 and 4. |
| BatchInsert.ValuesClauseSnoc | select/main.go:129-132 | For n ≥ 1, the rows part for n+1 products is the rows part for n, then one `,`, then one more group. |
| BatchInsert.ValuesClauseLength | select/main.go:129-132 | For n ≥ 1 the rows part is 7n−1 characters: six per group and one per comma. |
| BatchInsert.ValuesClauseSplit | select/main.go:129-132 | For 0 < k < n, the rows part for n products is the rows part for the first k, a comma, then the rows part for the other n−k. |
| BatchInsert.ValuesClauseLayout | select/main.go:129-132 | The rows part is empty for no products. Otherwise it is 7n−1 characters long, group k stands at offset 7k, and one comma follows every group except the last. So there is no leading comma and no trailing comma. |
| BatchInsert.ValuesClausePlaceholders | select/main.go:129-132 | The rows part for n products holds exactly 2n `?`. |
| BatchInsert.PlaceholdersBeforeGroup | select/main.go:129-132 | Exactly 2k `?` come before group k of the rows part. |
| BatchInsert.GroupAlignment | select/main.go:129 | Wherever a group stands, its `?` at offset 1 adds no count to the `?` before it, and its `?` at offset 4 comes after exactly one more. |
| BatchInsert.ValuesClauseAlignment | select/main.go:129-132 | In the rows part, the `?` at offsets 7k+1 and 7k+4 are placeholders number 2k and 2k+1. |
| BatchInsert.QuestionMarkNotInTableAndName | select/main.go:125 | The prefix up to the name column, `INSERT INTO product(product_name, `, contains no `?`. |
| BatchInsert.QuestionMarkNotInPrefix | select/main.go:125 | The prefix contains no `?` character. |
| BatchInsert.PrefixHasNoPlaceholder | select/main.go:125 | The prefix holds zero placeholders. |
| BatchInsert.PrefixedAlignment | select/main.go:125-133 | After any `?`-free head, the `?` numbered 2k and 2k+1 are the second and fifth characters of group k. |
| BatchInsert.PlaceholdersMatchParams | select/main.go:125-143 | For every input, the number of `?` in the text equals the number of values passed to `ExecContext`, which is 2·n. |
| BatchInsert.PlaceholderAlignment | select/main.go:125-143 | Counting from 0, placeholder number 2k is the character at \|prefix\|+7k+1 and receives product k's name. Placeholder 2k+1 is at \|prefix\|+7k+4 and receives its price. |
| BatchInsert.QueryDependsOnlyOnCount | select/main.go:128-133 | Two inputs of equal length give byte-identical texts. Their bind lists are equal exactly when the inputs are equal. |
| BatchInsert.EmptyBatch | insert/main.go:125-133 | No products give exactly the prefix, with no rows and no placeholders, and an empty bind list. |
| BatchInsert.SingleProductIsSingleInsert | select/main.go:94-104 | For one product, the batch gives the single-row `insert` statement text of line 95 and the arguments (name, price) of line 104. |
| BatchInsert.DemoBatch | insert/main.go:180-188 | For the demo products Galaxy 990 and iPad 500, the text is the prefix plus `(?, ?),(?, ?)` and the values are `Galaxy, 990, iPad, 500`. |
| Strings.Join | select/main.go:132 | The length of `strings.Join(parts, sep)` is the parts' total length plus one separator per adjacent pair. |
| Strings.JoinEnds | select/main.go:132 | `strings.Join` gives "" for no parts. Otherwise the result starts with the first part and ends with the last. |
| Strings.JoinConcat | insert/main.go:132 | Joining xs ++ ys, both non-empty, gives join(xs), the separator, then join(ys). |
| Strings.Repeat | select/main.go:126-129 | The `inserts` slice after n rounds has n elements, each the placeholder group. |
| Dsn.Dsn | select/main.go:26-28 | `dsn(d)` is `root:password@tcp(127.0.0.1:3306)/` followed by d verbatim. |
| Dsn.ServerPartSpelled | insert/main.go:14-27 | User, `:`, password, `@tcp(`, host and `)/` spell `root:password@tcp(127.0.0.1:3306)/`. |
| Dsn.DsnRoundTrip | insert/main.go:26-28 | Reading the database back out of `dsn(d)` gives d, and a text reads back as d exactly when it is `dsn(d)`. |
| Dsn.DsnInjective | select/main.go:27 | Different database names give different DSNs. |
| Dsn.ServerOnlyDsn | select/main.go:31 | `dsn("")` is the server part alone: it ends in `/` and names no database. |
| Dsn.DatabaseDsn | select/main.go:53 | `dsn(dbname)` is `root:password@tcp(127.0.0.1:3306)/ecommerce`. |

## Left out

- `dbConnection` (select/main.go:30-73) is not modelled because it is network I/O and driver behaviour. It opens and pings the server, creates the database, sets pool limits and uses context timeouts.
- `createProductTable` is not modelled: its DDL is executed by the server.
- The execute side of `insert` and `multipleInsert` is not modelled because these are foreign calls into `database/sql` and the MySQL driver. That side is `PrepareContext`, `ExecContext`, `RowsAffected` and `LastInsertId`. Only the statement texts and argument lists handed to those calls are modelled.
- `selectPrice` and `selectProductsByPrice` (select/main.go:157-203) are not modelled. Their price-range filter runs in the MySQL server, `sql.ErrNoRows` comes from the driver, and the scan loop only copies driver output.
- `main` (select/main.go:205-263, insert/main.go:157-193) is not modelled: it is sequencing, early returns and logging. Only its demo inputs appear, in `DemoBatch` and `SingleProductIsSingleInsert`.
- The `log.Println` of the built query is not modelled, and neither are any other log calls, because they are output only.
- `context.WithTimeout` and the `time` values are not modelled because they are timing mechanisms with nothing to prove.
- Go's `int` is 64 bits wide and the model's `int` is unbounded. Prices are only copied, never computed on, so the difference does not show.
- `fmt.Sprintf` is modelled only for `%s` with string arguments, the one form `dsn` uses. It inserts each argument verbatim.
