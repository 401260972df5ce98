/** The wish-list link reader of src/components/Content.tsx (`itemsFromURL`), over an
    already-decoded link: the text between the first `{` and the next `}` on the same line is
    a `|`-separated list of entries; each entry loses its first five characters and the rest
    is `<id>` or `<id>+<quantity>`. Turning the digit strings into numbers is a parameter. */
module Links {
  import opened Types
  import opened Seqs

  /** The characters JavaScript's `.` does not match. */
  predicate IsLineTerminator(c: char)
  {
    c == '\n' || c == '\r' || c == '\U{2028}' || c == '\U{2029}'
  }

  /** The first `}` or line terminator at or after `j`, or `|s|` when there is none. */
  function Stop(s: string, j: nat): (r: nat)
    requires j <= |s|
    ensures j <= r <= |s|
    ensures forall i :: j <= i < r ==> s[i] != '}' && !IsLineTerminator(s[i])
    ensures r < |s| ==> s[r] == '}' || IsLineTerminator(s[r])
    decreases |s| - j
  {
    if j == |s| || s[j] == '}' || IsLineTerminator(s[j]) then j else Stop(s, j + 1)
  }

  /** Where the lazy `(.*?)}` started at `j` ends: at the first `}` when no line terminator
      comes before it, else nowhere (-1). */
  function CloseAt(s: string, j: nat): (m: int)
    requires j <= |s|
    ensures m == -1 || (j <= m < |s| && s[m] == '}' && m == Stop(s, j))
    ensures m == -1 <==> Stop(s, j) == |s| || IsLineTerminator(s[Stop(s, j)])
  {
    var r := Stop(s, j);
    if r < |s| && s[r] == '}' then r else -1
  }

  /** The pattern matches starting at `k`: a `{` there, and a `}` the group reaches after it. */
  predicate Opens(s: string, k: nat)
    requires k < |s|
  {
    s[k] == '{' && CloseAt(s, k + 1) != -1
  }

  /** The first position at or after `i` where the pattern matches, or -1. */
  function OpenAt(s: string, i: nat): (k: int)
    requires i <= |s|
    ensures -1 <= k < |s|
    ensures k == -1 <==> forall k' :: i <= k' < |s| ==> !Opens(s, k')
    ensures k != -1 ==> i <= k && Opens(s, k)
    ensures k != -1 ==> forall k' :: i <= k' < k ==> !Opens(s, k')
    decreases |s| - i
  {
    if i == |s| then -1
    else if Opens(s, i) then i
    else OpenAt(s, i + 1)
  }

  /** `c`, braced, is written in `s` at `k`. */
  predicate BracedAt(s: string, k: int, c: string)
  {
    0 <= k && k + |c| + 2 <= |s| && s[k..k + |c| + 2] == "{" + c + "}"
  }

  /** Text the lazy group can span: no `}` and no line terminator. */
  predicate Clean(c: string)
  {
    forall i :: 0 <= i < |c| ==> c[i] != '}' && !IsLineTerminator(c[i])
  }

  /** `k` is where the regular expression engine's leftmost match begins. */
  predicate FirstOpens(s: string, k: int)
  {
    0 <= k < |s| && Opens(s, k) && forall k' :: 0 <= k' < k ==> !Opens(s, k')
  }

  /** `match(/{(.*?)}/)[1]`: the text of the first match, when there is one. It is braced at
      the leftmost position where the pattern matches, and holds no `}`, so the group stops
      at the first `}` after that `{`. */
  function Capture(s: string): (c: Option<string>)
    ensures c.None? <==> forall k :: 0 <= k < |s| ==> !Opens(s, k)
    ensures c.Some? ==> exists k :: FirstOpens(s, k) && BracedAt(s, k, c.value)
    ensures c.Some? ==> Clean(c.value)
  {
    var k := OpenAt(s, 0);
    if k == -1 then None
    else
      var m := CloseAt(s, k + 1);
      CapturedText(s, k, m);
      Some(s[k + 1..m])
  }

  lemma CapturedText(s: string, k: nat, m: nat)
    requires k < |s| && s[k] == '{' && CloseAt(s, k + 1) == m
    ensures BracedAt(s, k, s[k + 1..m])
    ensures Clean(s[k + 1..m])
  {
    assert s[k..m + 1] == "{" + s[k + 1..m] + "}";
  }

  /** `String.prototype.split` with a one-character separator: the pieces between separators,
      empty ones included; never an empty list. */
  function Split(s: string, sep: char): (ps: seq<string>)
    ensures |ps| >= 1
    decreases |s|
  {
    if |s| == 0 then [""]
    else
      var rest := Split(s[1..], sep);
      if s[0] == sep then [""] + rest else [[s[0]] + rest[0]] + rest[1..]
  }

  /** The pieces written back with the separator between them. */
  function Join(ps: seq<string>, sep: char): string
    decreases |ps|
  {
    if |ps| == 0 then "" else if |ps| == 1 then ps[0] else ps[0] + [sep] + Join(ps[1..], sep)
  }

  /** Splitting loses nothing: joining the pieces gives the text back, and no piece holds the separator. */
  lemma {:induction false} SplitJoin(s: string, sep: char)
    ensures Join(Split(s, sep), sep) == s
    ensures forall p :: p in Split(s, sep) ==> sep !in p
  {
    JoinOfSplit(s, sep);
    SplitPiecesOmitSeparator(s, sep);
  }

  /** Joining the pieces gives the text back. */
  lemma {:induction false} JoinOfSplit(s: string, sep: char)
    ensures Join(Split(s, sep), sep) == s
    decreases |s|
  {
    if |s| > 0 {
      var rest := Split(s[1..], sep);
      JoinOfSplit(s[1..], sep);
      if s[0] == sep {
        assert ([""] + rest)[1..] == rest;
      } else {
        var ps := [[s[0]] + rest[0]] + rest[1..];
        assert ps[1..] == rest[1..];
        if |rest| > 1 {
          assert Join(rest, sep) == rest[0] + [sep] + Join(rest[1..], sep);
        }
        assert s == [s[0]] + s[1..];
      }
    }
  }

  /** No piece holds the separator. */
  lemma {:induction false} SplitPiecesOmitSeparator(s: string, sep: char)
    ensures forall p :: p in Split(s, sep) ==> sep !in p
    decreases |s|
  {
    if |s| > 0 {
      var rest := Split(s[1..], sep);
      SplitPiecesOmitSeparator(s[1..], sep);
      if s[0] == sep {
        assert Split(s, sep) == [""] + rest;
      } else {
        var ps := [[s[0]] + rest[0]] + rest[1..];
        assert Split(s, sep) == ps;
        forall p | p in ps ensures sep !in p {
          if p == ps[0] {
            assert rest[0] in rest;
          } else {
            assert p in rest[1..];
          }
        }
      }
    }
  }

  lemma {:induction false} SplitPrefix(a: string, t: string, sep: char)
    requires sep !in a
    ensures Split(a + t, sep) == [a + Split(t, sep)[0]] + Split(t, sep)[1..]
    decreases |a|
  {
    if |a| == 0 {
      assert a + t == t;
      assert a + Split(t, sep)[0] == Split(t, sep)[0];
      assert [Split(t, sep)[0]] + Split(t, sep)[1..] == Split(t, sep);
    } else {
      assert (a + t)[1..] == a[1..] + t;
      SplitPrefix(a[1..], t, sep);
      assert [a[0]] + (a[1..] + Split(t, sep)[0]) == a + Split(t, sep)[0];
    }
  }

  /** Joining pieces free of the separator and splitting again gives the pieces back. */
  lemma {:induction false} JoinSplit(ps: seq<string>, sep: char)
    requires |ps| >= 1 && forall p :: p in ps ==> sep !in p
    ensures Split(Join(ps, sep), sep) == ps
    decreases |ps|
  {
    if |ps| == 1 {
      SplitPrefix(ps[0], "", sep);
      assert ps[0] + "" == ps[0];
    } else {
      var j := Join(ps[1..], sep);
      JoinSplit(ps[1..], sep);
      assert ps[0] + [sep] + j == ps[0] + ([sep] + j);
      SplitPrefix(ps[0], [sep] + j, sep);
      assert ([sep] + j)[1..] == j;
      assert ps[0] + "" == ps[0];
      assert [ps[0]] + ps[1..] == ps;
    }
  }

  /** `substr(5)`: the text without its first five characters, empty when it is shorter. */
  function Substr5(s: string): (r: string)
    ensures |s| <= 5 ==> r == ""
    ensures |s| > 5 ==> s == s[..5] + r
  {
    if |s| <= 5 then "" else s[5..]
  }

  /** One entry as text: the id, and the quantity when one is written and not empty. */
  datatype ItemRef = ItemRef(idText: string, quantityText: Option<string>)

  /** One `|`-piece of the link: drop five characters, split on `+`, keep the first part as
      the id and the second, when it is not empty, as the quantity. */
  function ParseRef(piece: string): (r: ItemRef)
    ensures Split(Substr5(piece), '+')[0] == r.idText
    ensures r.quantityText.Some? <==> |Split(Substr5(piece), '+')| > 1 && Split(Substr5(piece), '+')[1] != ""
    ensures r.quantityText.Some? ==> r.quantityText.value == Split(Substr5(piece), '+')[1]
  {
    var parts := Split(Substr5(piece), '+');
    ItemRef(parts[0], if |parts| > 1 && parts[1] != "" then Some(parts[1]) else None)
  }

  /** The entries of a link, or "Link not valid." when it has no `{...}` or an empty one. */
  function ParseLink(url: string): (r: Result<seq<ItemRef>, string>)
    ensures r.Failure? <==> Capture(url) == None || Capture(url) == Some("")
    ensures r.Failure? ==> r.error == "Link not valid."
    ensures r.Success? ==> |r.value| == |Split(Capture(url).value, '|')| >= 1
    ensures r.Success? ==> forall i :: 0 <= i < |r.value| ==> r.value[i] == ParseRef(Split(Capture(url).value, '|')[i])
  {
    match Capture(url)
    case None => Failure("Link not valid.")
    case Some(c) => if c == "" then Failure("Link not valid.") else Success(Map(Split(c, '|'), ParseRef))
  }

  /** The wish-list entries: the parsed id, the parsed quantity or 1 when none is written, and the
      id's decimal text as the provisional name. */
  function ItemsOf(refs: seq<ItemRef>, parse: string -> int): (items: seq<Item>)
    ensures |items| == |refs|
    ensures forall i :: 0 <= i < |refs| ==>
              items[i].id == parse(refs[i].idText)
              && items[i].name == Some(IntToString(items[i].id))
              && items[i].quantity == (if refs[i].quantityText.None? then 1 else parse(refs[i].quantityText.value))
  {
    Map(refs, (r: ItemRef) => var id := parse(r.idText);
      Item(id, if r.quantityText.None? then 1 else parse(r.quantityText.value), Some(IntToString(id))))
  }

  // ---------------------------------------------------------------------------
  // Writing a link and reading it back

  /** Characters that may appear in an id or a quantity without changing how the link splits. */
  predicate Plain(c: char)
  {
    c != '|' && c != '+' && c != '}' && !IsLineTerminator(c)
  }

  /** Characters that may appear in the five dropped leading characters. */
  predicate TagChar(c: char)
  {
    c != '|' && c != '}' && !IsLineTerminator(c)
  }

  /** An entry that reads back as itself: plain id, and a plain quantity that is not empty. */
  predicate Writable(r: ItemRef)
  {
    (forall i :: 0 <= i < |r.idText| ==> Plain(r.idText[i]))
    && (r.quantityText.Some? ==> r.quantityText.value != "")
    && (r.quantityText.Some? ==> forall i :: 0 <= i < |r.quantityText.value| ==> Plain(r.quantityText.value[i]))
  }

  function RefText(r: ItemRef): string
  {
    match r.quantityText
    case None => r.idText
    case Some(q) => r.idText + "+" + q
  }

  /** The link `{tag<id>[+<quantity>]|...}` for the entries. */
  function Render(tag: string, refs: seq<ItemRef>): string
  {
    "{" + Join(Map(refs, (r: ItemRef) => tag + RefText(r)), '|') + "}"
  }

  lemma {:induction false} JoinChars(ps: seq<string>, sep: char, ok: char -> bool)
    requires ok(sep) && forall p, i :: p in ps && 0 <= i < |p| ==> ok(p[i])
    ensures forall i :: 0 <= i < |Join(ps, sep)| ==> ok(Join(ps, sep)[i])
    decreases |ps|
  {
    if |ps| > 1 {
      JoinChars(ps[1..], sep, ok);
      var j := Join(ps[1..], sep);
      forall i | 0 <= i < |Join(ps, sep)| ensures ok(Join(ps, sep)[i]) {
        if i < |ps[0]| {
          assert Join(ps, sep)[i] == ps[0][i];
        } else if i == |ps[0]| {
          assert Join(ps, sep)[i] == sep;
        } else {
          assert Join(ps, sep)[i] == j[i - |ps[0]| - 1];
        }
      }
    } else if |ps| == 1 {
      assert ps[0] in ps;
    }
  }

  lemma {:induction false} CloseAtEnd(s: string, j: nat)
    requires 0 < j < |s| && s[|s| - 1] == '}'
    requires forall i :: j <= i < |s| - 1 ==> s[i] != '}' && !IsLineTerminator(s[i])
    ensures CloseAt(s, j) == |s| - 1
    decreases |s| - j
  {
    if j < |s| - 1 {
      CloseAtEnd(s, j + 1);
    }
  }

  lemma ParseRefText(tag: string, r: ItemRef)
    requires |tag| == 5 && Writable(r)
    ensures ParseRef(tag + RefText(r)) == r
  {
    var t := tag + RefText(r);
    assert t[5..] == RefText(r);
    assert '+' !in r.idText by {
      forall i | 0 <= i < |r.idText| ensures r.idText[i] != '+' { assert Plain(r.idText[i]); }
    }
    match r.quantityText
    case None =>
      SplitPrefix(r.idText, "", '+');
      assert r.idText + "" == r.idText;
    case Some(q) =>
      assert '+' !in q by {
        forall i | 0 <= i < |q| ensures q[i] != '+' { assert Plain(q[i]); }
      }
      JoinSplit([r.idText, q], '+');
      assert Join([r.idText, q], '+') == r.idText + "+" + Join([q], '+');
  }

  /** Every character of a written entry can sit between the braces, and none is a `|`. */
  lemma PieceChars(tag: string, r: ItemRef)
    requires |tag| == 5 && (forall i :: 0 <= i < 5 ==> TagChar(tag[i])) && Writable(r)
    ensures forall i :: 0 <= i < |tag + RefText(r)| ==> TagChar((tag + RefText(r))[i])
  {
    var p, t := tag + RefText(r), RefText(r);
    forall i | 0 <= i < |p| ensures TagChar(p[i]) {
      if i >= 5 {
        assert p[i] == t[i - 5];
        match r.quantityText
        case None =>
          assert Plain(r.idText[i - 5]);
        case Some(q) =>
          if i - 5 < |r.idText| {
            assert Plain(r.idText[i - 5]);
          } else if i - 5 > |r.idText| {
            assert t[i - 5] == q[i - 5 - |r.idText| - 1];
            assert Plain(q[i - 5 - |r.idText| - 1]);
          }
      } else {
        assert TagChar(tag[i]);
      }
    }
  }

  /** The pattern captures exactly the text between the outer braces of a written link. */
  lemma CaptureBody(body: string)
    requires Clean(body)
    ensures Capture("{" + body + "}") == Some(body)
  {
    var s := "{" + body + "}";
    CloseAtEnd(s, 1);
    assert OpenAt(s, 0) == 0;
    assert s[1..|s| - 1] == body;
  }

  /** The written entries contain no `|`, and joined they fit between the braces. */
  lemma PiecesClean(tag: string, refs: seq<ItemRef>)
    requires |tag| == 5 && forall i :: 0 <= i < 5 ==> TagChar(tag[i])
    requires forall r :: r in refs ==> Writable(r)
    ensures forall p :: p in Map(refs, (r: ItemRef) => tag + RefText(r)) ==> '|' !in p
    ensures Clean(Join(Map(refs, (r: ItemRef) => tag + RefText(r)), '|'))
  {
    var pieces := Map(refs, (r: ItemRef) => tag + RefText(r));
    forall p, i | p in pieces && 0 <= i < |p| ensures TagChar(p[i]) {
      var k :| 0 <= k < |refs| && p == pieces[k];
      assert refs[k] in refs;
      PieceChars(tag, refs[k]);
    }
    JoinChars(pieces, '|', (c: char) => c != '}' && !IsLineTerminator(c));
    forall p | p in pieces ensures '|' !in p {
      forall i | 0 <= i < |p| ensures p[i] != '|' {
        assert TagChar(p[i]);
      }
    }
  }

  /** Reading back a written link gives the entries back, whatever the five leading characters of
      each entry (the source drops them unseen) as long as they contain no separator. */
  lemma ParseRender(tag: string, refs: seq<ItemRef>)
    requires |tag| == 5 && forall i :: 0 <= i < 5 ==> TagChar(tag[i])
    requires |refs| >= 1 && forall r :: r in refs ==> Writable(r)
    ensures ParseLink(Render(tag, refs)) == Success(refs)
  {
    var pieces := Map(refs, (r: ItemRef) => tag + RefText(r));
    var body := Join(pieces, '|');
    PiecesClean(tag, refs);
    CaptureBody(body);
    BodyNotEmpty(pieces, tag);
    JoinSplit(pieces, '|');
    ParsePieces(tag, refs);
  }

  /** With the first entry at least five characters long, the joined entries are not empty. */
  lemma BodyNotEmpty(pieces: seq<string>, tag: string)
    requires |pieces| >= 1 && |tag| == 5 && tag <= pieces[0]
    ensures Join(pieces, '|') != ""
  {
    if |pieces| > 1 {
      assert Join(pieces, '|') == pieces[0] + ['|'] + Join(pieces[1..], '|');
    }
  }

  /** Each written entry reads back as itself. */
  lemma ParsePieces(tag: string, refs: seq<ItemRef>)
    requires |tag| == 5 && forall i :: 0 <= i < 5 ==> TagChar(tag[i])
    requires forall r :: r in refs ==> Writable(r)
    ensures Map(Map(refs, (r: ItemRef) => tag + RefText(r)), ParseRef) == refs
  {
    var pieces := Map(refs, (r: ItemRef) => tag + RefText(r));
    forall k | 0 <= k < |refs| ensures ParseRef(pieces[k]) == refs[k] {
      assert refs[k] in refs;
      ParseRefText(tag, refs[k]);
    }
  }
}
