/** The material list of src/app/page.tsx as values: the record, the category
    table, and the pure list transforms behind the page's handlers (add,
    toggle favourite, delete, edit), the search/category filter and the
    relative-time bucketing of `formatTime`. */
module Materials {
  import opened Common

  /** `createdAt` is the creation time in milliseconds since the epoch. */
  datatype Material = Material(
    id: string,
    title: string,
    content: string,
    category: string,
    tags: seq<string>,
    createdAt: int,
    isFavorite: bool,
    color: string)

  datatype Category = Category(id: string, name: string, icon: string, color: string)

  const Categories: seq<Category> := [
    Category("article", "文章", "📖", "#5B8DEF"),
    Category("idea", "灵感", "💡", "#F5A623"),
    Category("quote", "语录", "💬", "#7B68EE"),
    Category("link", "链接", "🔗", "#4ECDC4"),
    Category("note", "笔记", "📝", "#FF6B6B"),
    Category("image", "图片", "🖼️", "#95E1D3")
  ]

  const FallbackColor := "#888"

  /** The add sheet's form: `newItem`. */
  datatype Draft = Draft(title: string, content: string, category: string)

  const EmptyDraft := Draft("", "", "note")

  // ---------------------------------------------------------------------------
  // Category lookup

  /** `cs.find(c => c.id === id)`: the first category with that id. */
  function FindCategory(cs: seq<Category>, id: string): (r: Option<Category>)
    ensures r.None? <==> forall i :: 0 <= i < |cs| ==> cs[i].id != id
    ensures r.Some? ==> exists i :: 0 <= i < |cs| && cs[i] == r.value && r.value.id == id
                                    && forall j :: 0 <= j < i ==> cs[j].id != id
  {
    if cs == [] then None
    else if cs[0].id == id then Some(cs[0])
    else
      var r := FindCategory(cs[1..], id);
      assert forall i :: 1 <= i < |cs| ==> cs[i] == cs[1..][i - 1];
      r
  }

  /** No two categories share an id. */
  lemma CategoryIdsDistinct()
    ensures forall i, j :: 0 <= i < j < |Categories| ==> Categories[i].id != Categories[j].id
  {
  }

  /** `categoryInfo?.color || '#888'`: the colour of the category, or the
      fallback colour for an unknown category. */
  function CategoryColor(category: string): (c: string)
    ensures (forall i :: 0 <= i < |Categories| ==> Categories[i].id != category) ==> c == FallbackColor
    ensures forall i :: 0 <= i < |Categories| && Categories[i].id == category ==> c == Categories[i].color
  {
    var info := FindCategory(Categories, category);
    CategoryIdsDistinct();
    if info.Some? && info.value.color != "" then info.value.color else FallbackColor
  }

  // ---------------------------------------------------------------------------
  // String.prototype.trim

  /** WhiteSpace and LineTerminator code points of ECMAScript, which `trim` removes. */
  predicate IsJsWhitespace(c: char)
  {
    c == '\t' || c == '\n' || c == '\U{000B}' || c == '\U{000C}' || c == '\r' || c == ' '
    || c == '\U{00A0}' || c == '\U{1680}' || ('\U{2000}' <= c <= '\U{200A}')
    || c == '\U{2028}' || c == '\U{2029}' || c == '\U{202F}' || c == '\U{205F}'
    || c == '\U{3000}' || c == '\U{FEFF}'
  }

  /** `trim`: drop white space at the start, then at the end. */
  function TrimStart(s: string): (r: string)
    ensures |r| <= |s|
  {
    if s != [] && IsJsWhitespace(s[0]) then TrimStart(s[1..]) else s
  }

  function TrimEnd(s: string): (r: string)
    ensures |r| <= |s|
  {
    if s != [] && IsJsWhitespace(s[|s| - 1]) then TrimEnd(s[..|s| - 1]) else s
  }

  function Trim(s: string): string
  {
    TrimEnd(TrimStart(s))
  }

  /** TrimStart removes a white-space prefix and stops at the first other character. */
  lemma {:induction false} TrimStartSpec(s: string)
    ensures TrimStart(s) == s[|s| - |TrimStart(s)|..]
    ensures forall i :: 0 <= i < |s| - |TrimStart(s)| ==> IsJsWhitespace(s[i])
    ensures TrimStart(s) != [] ==> !IsJsWhitespace(TrimStart(s)[0])
  {
    if s != [] && IsJsWhitespace(s[0]) {
      TrimStartSpec(s[1..]);
      assert forall i :: 1 <= i < |s| ==> s[i] == s[1..][i - 1];
    }
  }

  /** TrimEnd removes a white-space suffix and stops at the last other character. */
  lemma {:induction false} TrimEndSpec(s: string)
    ensures TrimEnd(s) == s[..|TrimEnd(s)|]
    ensures forall i :: |TrimEnd(s)| <= i < |s| ==> IsJsWhitespace(s[i])
    ensures TrimEnd(s) != [] ==> !IsJsWhitespace(TrimEnd(s)[|TrimEnd(s)| - 1])
  {
    if s != [] && IsJsWhitespace(s[|s| - 1]) {
      TrimEndSpec(s[..|s| - 1]);
    }
  }

  /** `s.trim()` is empty exactly when every character of `s` is white space. */
  lemma TrimEmptyIffBlank(s: string)
    ensures Trim(s) == "" <==> forall i :: 0 <= i < |s| ==> IsJsWhitespace(s[i])
  {
    var t := TrimStart(s);
    TrimStartSpec(s);
    TrimEndSpec(t);
    if Trim(s) == "" {
      assert t == [];
    }
  }

  // ---------------------------------------------------------------------------
  // handleAdd

  /** The record handleAdd creates; `id` is `Date.now().toString()` and `now`
      is the creation time. */
  function NewMaterial(draft: Draft, id: string, now: int): Material
  {
    Material(id, draft.title, draft.content, draft.category, [], now, false, CategoryColor(draft.category))
  }

  /** The list after handleAdd: unchanged for a blank title, otherwise the new
      record in front of the old list. */
  function Added(ms: seq<Material>, draft: Draft, id: string, now: int): (r: seq<Material>)
    ensures Trim(draft.title) == "" ==> r == ms
    ensures Trim(draft.title) != "" ==>
              && |r| == |ms| + 1 && r[1..] == ms
              && r[0].id == id && r[0].title == draft.title && r[0].content == draft.content
              && r[0].category == draft.category && r[0].tags == [] && !r[0].isFavorite
              && r[0].createdAt == now && r[0].color == CategoryColor(draft.category)
  {
    if Trim(draft.title) == "" then ms else [NewMaterial(draft, id, now)] + ms
  }

  // ---------------------------------------------------------------------------
  // toggleFavorite

  function Toggle(m: Material): Material
  {
    m.(isFavorite := !m.isFavorite)
  }

  /** The list after toggleFavorite(id). */
  function Toggled(ms: seq<Material>, id: string): (r: seq<Material>)
    ensures |r| == |ms|
    ensures forall i :: 0 <= i < |ms| ==> r[i].isFavorite == (ms[i].isFavorite != (ms[i].id == id))
    ensures forall i :: 0 <= i < |ms| ==> r[i].(isFavorite := ms[i].isFavorite) == ms[i]
  {
    seq(|ms|, i requires 0 <= i < |ms| => if ms[i].id == id then Toggle(ms[i]) else ms[i])
  }

  /** Toggling the same id twice restores the list. */
  lemma ToggleTwice(ms: seq<Material>, id: string)
    ensures Toggled(Toggled(ms, id), id) == ms
  {
  }

  // ---------------------------------------------------------------------------
  // handleDelete

  function HasOtherId(id: string): Material -> bool
  {
    (m: Material) => m.id != id
  }

  /** The list after handleDelete(id). */
  function Deleted(ms: seq<Material>, id: string): seq<Material>
  {
    Filter(ms, HasOtherId(id))
  }

  /** Delete removes every record with the id, keeps every other record, and
      keeps the survivors in their original order; an unknown id is a no-op. */
  lemma DeletedSpec(ms: seq<Material>, id: string)
    ensures forall m :: m in Deleted(ms, id) <==> m in ms && m.id != id
    ensures IsSubsequence(Deleted(ms, id), ms)
    ensures (forall i :: 0 <= i < |ms| ==> ms[i].id != id) ==> Deleted(ms, id) == ms
    ensures forall m :: multiset(Deleted(ms, id))[m] == if m.id != id then multiset(ms)[m] else 0
  {
    forall m ensures m in Deleted(ms, id) <==> m in ms && m.id != id {
      FilterMembership(ms, HasOtherId(id), m);
    }
    forall m ensures multiset(Deleted(ms, id))[m] == if m.id != id then multiset(ms)[m] else 0 {
      FilterMultiplicity(ms, HasOtherId(id), m);
    }
    FilterIsSubsequence(ms, HasOtherId(id));
    if forall i :: 0 <= i < |ms| ==> ms[i].id != id {
      FilterAllPass(ms, HasOtherId(id));
    }
  }

  // ---------------------------------------------------------------------------
  // handleEdit

  /** The list after handleEdit with the selected record's id and the edited
      title and content. */
  function Edited(ms: seq<Material>, id: string, title: string, content: string): (r: seq<Material>)
    ensures |r| == |ms|
    ensures forall i :: 0 <= i < |ms| && ms[i].id != id ==> r[i] == ms[i]
    ensures forall i :: 0 <= i < |ms| && ms[i].id == id ==> r[i].title == title && r[i].content == content
    ensures forall i :: 0 <= i < |ms| ==> r[i].(title := ms[i].title, content := ms[i].content) == ms[i]
  {
    seq(|ms|, i requires 0 <= i < |ms| =>
      if ms[i].id == id then ms[i].(title := title, content := content) else ms[i])
  }

  // ---------------------------------------------------------------------------
  // filteredMaterials

  /** `toLowerCase` on the ASCII letters; every other character is kept. */
  function Lower(s: string): (r: string)
    ensures |r| == |s|
    ensures forall i :: 0 <= i < |s| ==> ('A' <= s[i] <= 'Z' ==> r[i] as int == s[i] as int + 32)
    ensures forall i :: 0 <= i < |s| ==> (!('A' <= s[i] <= 'Z') ==> r[i] == s[i])
  {
    seq(|s|, i requires 0 <= i < |s| => if 'A' <= s[i] <= 'Z' then (s[i] as int + 32) as char else s[i])
  }

  predicate OccursAt(s: string, t: string, i: int)
  {
    0 <= i <= |s| - |t| && s[i..i + |t|] == t
  }

  /** `s.includes(t)`. */
  predicate Contains(s: string, t: string)
  {
    exists i | 0 <= i <= |s| - |t| :: OccursAt(s, t, i)
  }

  predicate MatchesSearch(m: Material, query: string)
  {
    query == "" || Contains(Lower(m.title), Lower(query)) || Contains(Lower(m.content), Lower(query))
  }

  predicate MatchesCategory(m: Material, category: Option<string>)
  {
    category.None? || m.category == category.value
  }

  function Keeps(query: string, category: Option<string>): Material -> bool
  {
    (m: Material) => MatchesSearch(m, query) && MatchesCategory(m, category)
  }

  /** `filteredMaterials` for the current search query and selected category. */
  function Filtered(ms: seq<Material>, query: string, category: Option<string>): seq<Material>
  {
    Filter(ms, Keeps(query, category))
  }

  /** A record is shown exactly when it matches the query and the category,
      in the list's order; with no query and no category everything is shown. */
  lemma FilteredSpec(ms: seq<Material>, query: string, category: Option<string>)
    ensures forall m :: m in Filtered(ms, query, category) <==>
                          m in ms && MatchesSearch(m, query) && MatchesCategory(m, category)
    ensures IsSubsequence(Filtered(ms, query, category), ms)
    ensures query == "" && category.None? ==> Filtered(ms, query, category) == ms
    ensures forall m :: multiset(Filtered(ms, query, category))[m] ==
                          if MatchesSearch(m, query) && MatchesCategory(m, category) then multiset(ms)[m] else 0
  {
    forall m ensures multiset(Filtered(ms, query, category))[m] ==
                     if MatchesSearch(m, query) && MatchesCategory(m, category) then multiset(ms)[m] else 0 {
      FilterMultiplicity(ms, Keeps(query, category), m);
    }
    forall m ensures m in Filtered(ms, query, category) <==>
                     m in ms && MatchesSearch(m, query) && MatchesCategory(m, category) {
      FilterMembership(ms, Keeps(query, category), m);
    }
    FilterIsSubsequence(ms, Keeps(query, category));
    if query == "" && category.None? {
      FilterAllPass(ms, Keeps(query, category));
    }
  }

  /** A query that occurs verbatim in the title passes the search, whatever
      the letter case of either. */
  lemma TitleHitIsShown(m: Material, query: string, i: nat)
    requires i + |query| <= |m.title| && m.title[i..i + |query|] == query
    ensures MatchesSearch(m, query)
  {
    var lt, lq := Lower(m.title), Lower(query);
    assert OccursAt(lt, lq, i);
  }

  // ---------------------------------------------------------------------------
  // formatTime

  const MinuteMs := 60 * 1000
  const HourMs := 60 * MinuteMs
  const DayMs := 24 * HourMs

  /** The relative time shown on a card: "N分钟前", "N小时前", "N天前", or a
      locale date string for the creation time. */
  datatype Elapsed = MinutesAgo(n: int) | HoursAgo(n: int) | DaysAgo(n: int) | OnDate(createdAt: int)

  /** `formatTime`: Math.floor of the elapsed milliseconds in whole minutes,
      hours and days (Dafny's `/` by a positive divisor is that floor). */
  function FormatTime(createdAt: int, now: int): (r: Elapsed)
    ensures r.MinutesAgo? <==> now - createdAt < 60 * MinuteMs
    ensures r.HoursAgo? <==> 60 * MinuteMs <= now - createdAt < 24 * HourMs
    ensures r.DaysAgo? <==> 24 * HourMs <= now - createdAt < 7 * DayMs
    ensures r.OnDate? <==> 7 * DayMs <= now - createdAt
    ensures r.MinutesAgo? ==> r.n * MinuteMs <= now - createdAt < (r.n + 1) * MinuteMs && r.n < 60
    ensures r.HoursAgo? ==> r.n * HourMs <= now - createdAt < (r.n + 1) * HourMs && 1 <= r.n < 24
    ensures r.DaysAgo? ==> r.n * DayMs <= now - createdAt < (r.n + 1) * DayMs && 1 <= r.n < 7
    ensures r.OnDate? ==> r.createdAt == createdAt
  {
    var diff := now - createdAt;
    var minutes := diff / MinuteMs;
    var hours := diff / HourMs;
    var days := diff / DayMs;
    if minutes < 60 then MinutesAgo(minutes)
    else if hours < 24 then HoursAgo(hours)
    else if days < 7 then DaysAgo(days)
    else OnDate(createdAt)
  }
}
