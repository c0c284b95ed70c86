/** The query builder of GET /api/projects: it collects WHERE conditions and
    their bound parameters side by side, joins the conditions with AND, and
    appends the grouping, the ordering and the page. Only the SQL text and
    the parameter list are modelled, not their execution. */
module ListQuery {
  import opened Js
  import opened Strings

  /** The query string of the request; `limit` and `offset` are already
      the numbers `parseInt` makes of them. */
  datatype ListRequest = ListRequest(category: Option<string>, search: Option<string>,
                                     sort: Option<string>, order: Option<string>,
                                     limit: Option<int>, offset: Option<int>)

  /** A value bound to one `?` placeholder. */
  datatype SqlParam = Text(text: string) | Int(n: int)

  const Placeholder := "?"
  /** The initial text, with its line breaks and indentation reduced to
      single spaces. */
  const SelectFrom := "SELECT p.*, " + "COUNT(c.id) as comment_count " + "FROM projects p "
                      + "LEFT JOIN comments c " + "ON p.id = c.project_id"
  const CategoryCondition := "p.category = " + Placeholder
  const SearchCondition := "(p.title LIKE " + Placeholder + " OR p.description LIKE " + Placeholder
                           + " OR p.tags LIKE " + Placeholder + ")"
  /** The template ` GROUP BY p.id ORDER BY p.${sort} ${order} LIMIT ? OFFSET ?`
      is the prefix, `sort`, a space, `order` and the page. */
  const OrderByPrefix := " GROUP BY p.id " + "ORDER BY p."
  const Page := " LIMIT " + Placeholder + " OFFSET " + Placeholder

  lemma OccurrencesAppend(a: string, b: string, c: string)
    ensures Occurrences(a + b + c, '?') == Occurrences(a, '?') + Occurrences(b, '?') + Occurrences(c, '?')
  {
    OccurrencesConcat(a, b, '?');
    OccurrencesConcat(a + b, c, '?');
  }

  /** Text pieces free of `?` around one, two or three placeholders. */
  lemma PlaceholderCount(a: string, b: string, c: string, d: string)
    requires '?' !in a && '?' !in b && '?' !in c && '?' !in d
    ensures Occurrences(a + Placeholder, '?') == 1
    ensures Occurrences(a + Placeholder + b + Placeholder, '?') == 2
    ensures Occurrences(a + Placeholder + b + Placeholder + c + Placeholder + d, '?') == 3
  {
    assert Occurrences(Placeholder, '?') == 1;
    OccurrencesConcat(a, Placeholder, '?');
    OccurrencesAppend(a + Placeholder, b, Placeholder);
    OccurrencesAppend(a + Placeholder + b + Placeholder, c, Placeholder);
    OccurrencesConcat(a + Placeholder + b + Placeholder + c + Placeholder, d, '?');
  }

  /** A WHERE clause over at most two conditions carries exactly their
      placeholders when the keyword and the separator carry none. */
  lemma WhereClausePlaceholders(conditions: seq<string>, keyword: string, sep: string)
    requires |conditions| <= 2
    requires Occurrences(keyword, '?') == 0 && Occurrences(sep, '?') == 0
    ensures var clause := if |conditions| > 0 then keyword + Join(conditions, sep) else "";
            Occurrences(clause, '?') ==
              if |conditions| == 0 then 0
              else if |conditions| == 1 then Occurrences(conditions[0], '?')
              else Occurrences(conditions[0], '?') + Occurrences(conditions[1], '?')
  {
    if |conditions| == 1 {
      OccurrencesAppend(keyword, conditions[0], "");
      assert keyword + Join(conditions, sep) == keyword + conditions[0] + "";
    }
    if |conditions| == 2 {
      assert Join(conditions, sep) == conditions[0] + sep + conditions[1];
      OccurrencesAppend(conditions[0], sep, conditions[1]);
      OccurrencesAppend(keyword, Join(conditions, sep), "");
      assert keyword + Join(conditions, sep) + "" == keyword + Join(conditions, sep);
    }
  }

  /** The fixed pieces of the text carry 0, 1, 3 and 2 placeholders. */
  lemma SelectFromPlaceholders()
    ensures Occurrences(SelectFrom, '?') == 0
  {
    var a, b, c := "SELECT p.*, ", "COUNT(c.id) as comment_count ", "FROM projects p ";
    var d, e := "LEFT JOIN comments c ", "ON p.id = c.project_id";
    assert '?' !in a && '?' !in b && '?' !in c && '?' !in d && '?' !in e;
    OccurrencesAppend(a, b, c);
    OccurrencesAppend(a + b + c, d, e);
  }

  lemma OrderByPrefixPlaceholders()
    ensures Occurrences(OrderByPrefix, '?') == 0
  {
    assert '?' !in OrderByPrefix;
  }

  lemma CategoryConditionPlaceholders()
    ensures Occurrences(CategoryCondition, '?') == 1
  {
    PlaceholderCount("p.category = ", "", "", "");
  }

  lemma SearchConditionPlaceholders()
    ensures Occurrences(SearchCondition, '?') == 3
  {
    PlaceholderCount("(p.title LIKE ", " OR p.description LIKE ", " OR p.tags LIKE ", ")");
  }

  lemma PagePlaceholders()
    ensures Occurrences(Page, '?') == 2
  {
    PlaceholderCount(" LIMIT ", " OFFSET ", "", "");
  }

  /** The placeholders of the whole text are those of its parts. */
  lemma QueryPlaceholders(select: string, filter: string, prefix: string,
                          sort: string, order: string, page: string)
    ensures Occurrences(select + filter + (prefix + sort + " " + order + page), '?')
         == Occurrences(select, '?') + Occurrences(filter, '?') + Occurrences(prefix, '?')
            + Occurrences(sort, '?') + Occurrences(order, '?') + Occurrences(page, '?')
  {
    assert '?' !in " ";
    OccurrencesAppend(prefix, sort, " ");
    OccurrencesAppend(prefix + sort + " ", order, page);
    OccurrencesAppend(select, filter, prefix + sort + " " + order + page);
  }

  /** Where the first and last of three concatenated pieces sit. */
  lemma ConcatShape(a: string, b: string, c: string)
    ensures StartsWith(a + b + c, a) && (a + b + c)[|a|..] == b + c && EndsWith(a + b + c, c)
  {
    assert (a + b + c)[..|a|] == a;
  }

  /** `category && category !== 'all'`. */
  predicate FiltersByCategory(q: ListRequest) {
    Present(q.category) && q.category.value != "all"
  }

  predicate FiltersBySearch(q: ListRequest) {
    Present(q.search)
  }

  /** The destructuring defaults `sort = 'created_at'`, `order = 'DESC'`,
      `limit = 20`, `offset = 0`, which apply only to absent fields. */
  function SortColumn(q: ListRequest): string { if q.sort.Some? then q.sort.value else "created_at" }
  function SortOrder(q: ListRequest): string { if q.order.Some? then q.order.value else "DESC" }
  function Limit(q: ListRequest): int { if q.limit.Some? then q.limit.value else 20 }
  function Offset(q: ListRequest): int { if q.offset.Some? then q.offset.value else 0 }

  /** The text after the WHERE clause: grouping, ordering and the page. */
  function GroupOrderPage(q: ListRequest): string {
    OrderByPrefix + SortColumn(q) + " " + SortOrder(q) + Page
  }

  /** The conditions pushed, in order: category first, then search. */
  function Conditions(q: ListRequest): seq<string> {
    (if FiltersByCategory(q) then [CategoryCondition] else [])
    + (if FiltersBySearch(q) then [SearchCondition] else [])
  }

  /** The parameters pushed with the conditions, in the same order. */
  function FilterParams(q: ListRequest): seq<SqlParam> {
    (if FiltersByCategory(q) then [Text(q.category.value)] else [])
    + (if FiltersBySearch(q) then
         var term := "%" + q.search.value + "%"; [Text(term), Text(term), Text(term)]
       else [])
  }

  /** `' WHERE ' + conditions.join(' AND ')`, only when there are conditions. */
  function WhereClause(conditions: seq<string>): string {
    if |conditions| > 0 then " WHERE " + Join(conditions, " AND ") else ""
  }

  /** The text and the parameters the route hands to `db.all`. */
  function ListSql(q: ListRequest): string {
    SelectFrom + WhereClause(Conditions(q)) + GroupOrderPage(q)
  }

  function ListParams(q: ListRequest): seq<SqlParam> {
    FilterParams(q) + [Int(Limit(q)), Int(Offset(q))]
  }

  /** Two conditions are joined by " AND " after the keyword. */
  lemma TwoConditions(select: string, c1: string, c2: string, tail: string)
    ensures select + WhereClause([c1, c2]) + tail == select + " WHERE " + c1 + " AND " + c2 + tail
  {
    assert [c1, c2][1..] == [c2];
    assert Join([c2], " AND ") == c2;
    assert WhereClause([c1, c2]) == " WHERE " + (c1 + " AND " + c2);
    var sw := select + " WHERE ";
    assert select + (" WHERE " + (c1 + " AND " + c2)) == sw + (c1 + " AND " + c2);
    assert sw + ((c1 + " AND ") + c2) == (sw + (c1 + " AND ")) + c2;
    assert sw + (c1 + " AND ") == sw + c1 + " AND ";
  }

  /** The WHERE clause carries one `?` per parameter pushed with its conditions. */
  lemma FilterPlaceholders(q: ListRequest)
    ensures Occurrences(WhereClause(Conditions(q)), '?') == |FilterParams(q)|
  {
    assert '?' !in " WHERE " && '?' !in " AND ";
    CategoryConditionPlaceholders();
    SearchConditionPlaceholders();
    WhereClausePlaceholders(Conditions(q), " WHERE ", " AND ");
  }

  /** Every `?` of the text has its parameter, except those that `sort` and
      `order` bring in, since both are pasted into the text unchecked. */
  lemma ListQueryPlaceholders(q: ListRequest)
    ensures Occurrences(ListSql(q), '?')
         == |ListParams(q)| + Occurrences(SortColumn(q), '?') + Occurrences(SortOrder(q), '?')
  {
    FilterPlaceholders(q);
    SelectFromPlaceholders();
    OrderByPrefixPlaceholders();
    PagePlaceholders();
    QueryPlaceholders(SelectFrom, WhereClause(Conditions(q)), OrderByPrefix, SortColumn(q), SortOrder(q), Page);
  }

  /** The parameters: the category, then the search pattern three times,
      then the limit and the offset. */
  lemma ListParamsOrder(q: ListRequest)
    ensures var params := ListParams(q);
            && |params| == (if FiltersByCategory(q) then 1 else 0) + (if FiltersBySearch(q) then 3 else 0) + 2
            && params[|params| - 2..] == [Int(Limit(q)), Int(Offset(q))]
            && (FiltersByCategory(q) ==> params[0] == Text(q.category.value))
            && (FiltersBySearch(q) ==>
                  forall k :: |params| - 5 <= k < |params| - 2 ==> params[k] == Text("%" + q.search.value + "%"))
  {
    var params := ListParams(q);
    assert params[..|FilterParams(q)|] == FilterParams(q);
  }

  /** The grouping text starts with " G", so only a WHERE clause makes the
      text after the SELECT start with " WHERE ". */
  lemma FilterKeyword(conditions: seq<string>, tail: string)
    requires |tail| >= 2 && tail[1] == 'G'
    ensures StartsWith(WhereClause(conditions) + tail, " WHERE ") <==> |conditions| > 0
  {
    if |conditions| > 0 {
      assert (" WHERE " + Join(conditions, " AND ") + tail)[..7] == " WHERE ";
    } else if |tail| >= 7 {
      assert ("" + tail)[..7][1] == 'G';
    }
  }

  lemma GroupOrderPageShape(q: ListRequest)
    ensures |GroupOrderPage(q)| >= 2 && GroupOrderPage(q)[1] == 'G'
  {
    assert OrderByPrefix[1] == 'G';
  }

  /** The text is the SELECT, a WHERE clause exactly when some filter
      applies (the two conditions joined by " AND "), and the grouping,
      ordering and page. */
  lemma ListSqlShape(q: ListRequest)
    ensures var sql := ListSql(q);
            && StartsWith(sql, SelectFrom)
            && (StartsWith(sql[|SelectFrom|..], " WHERE ") <==> FiltersByCategory(q) || FiltersBySearch(q))
            && (FiltersByCategory(q) && FiltersBySearch(q) ==>
                  sql == SelectFrom + " WHERE " + CategoryCondition + " AND " + SearchCondition + GroupOrderPage(q))
            && EndsWith(sql, GroupOrderPage(q))
  {
    var filter := WhereClause(Conditions(q));
    var tail := GroupOrderPage(q);
    ConcatShape(SelectFrom, filter, tail);
    GroupOrderPageShape(q);
    FilterKeyword(Conditions(q), tail);
    if FiltersByCategory(q) && FiltersBySearch(q) {
      assert Conditions(q) == [CategoryCondition, SearchCondition];
      TwoConditions(SelectFrom, CategoryCondition, SearchCondition, tail);
    }
  }

  /** Builds the SQL text and its parameters as the route does: conditions
      and parameters are pushed side by side, then the text is extended. */
  method BuildListQuery(q: ListRequest) returns (sql: string, params: seq<SqlParam>)
    ensures sql == ListSql(q) && params == ListParams(q)
  {
    var conditions: seq<string> := [];
    params := [];

    if FiltersByCategory(q) {
      conditions := conditions + [CategoryCondition];
      params := params + [Text(q.category.value)];
    }

    if FiltersBySearch(q) {
      conditions := conditions + [SearchCondition];
      var term := "%" + q.search.value + "%";
      params := params + [Text(term), Text(term), Text(term)];
    }

    sql := SelectFrom;
    if |conditions| > 0 {
      sql := sql + (" WHERE " + Join(conditions, " AND "));
    }
    sql := sql + GroupOrderPage(q);
    params := params + [Int(Limit(q)), Int(Offset(q))];
  }
}
