/**
 * The three renderings of an order the server produces: the plain-text
 * notification (`buildNotificationMessage`), the e-mail body
 * (`escapeHtml`, `buildEmailHtml`) and the public order page served by
 * `GET /orders/:id` with its `safe` stripper.
 */
module Render {
  import opened Wrappers
  import opened Strings
  import opened Js
  import opened OrderData

  // ---------------------------------------------------------------------------
  // escapeHtml
  // ---------------------------------------------------------------------------

  /** The four characters `escapeHtml` replaces. */
  predicate IsSpecial(c: char) {
    c == '&' || c == '<' || c == '>' || c == '"'
  }

  predicate NoSpecial(s: string) {
    forall i :: 0 <= i < |s| ==> !IsSpecial(s[i])
  }

  /** The replacement of one character. */
  function EscapeChar(c: char): string {
    if c == '&' then "&amp;"
    else if c == '<' then "&lt;"
    else if c == '>' then "&gt;"
    else if c == '"' then "&quot;"
    else [c]
  }

  /** An entity reference `escapeHtml` emits starts at offset `i` of `s`. */
  predicate EntityAt(s: string, i: int)
    requires 0 <= i <= |s|
  {
    IsPrefix("&amp;", s[i..]) || IsPrefix("&lt;", s[i..])
    || IsPrefix("&gt;", s[i..]) || IsPrefix("&quot;", s[i..])
  }

  /** An entity found in `t` is still an entity once `h` is put in front. */
  lemma EntityShift(h: string, t: string)
    ensures forall j :: 0 <= j < |t| && EntityAt(t, j) ==> EntityAt(h + t, |h| + j)
  {
    forall j | 0 <= j < |t| && EntityAt(t, j)
      ensures EntityAt(h + t, |h| + j)
    {
      assert (h + t)[|h| + j..] == t[j..];
    }
  }

  /** The replacement of a character holds no `<`, `>` or `"`, and an `&` in
      it opens an entity, whatever text follows. */
  lemma EscapeCharSafe(c: char, t: string)
    ensures forall i :: 0 <= i < |EscapeChar(c)| ==> EscapeChar(c)[i] != '<' && EscapeChar(c)[i] != '>' && EscapeChar(c)[i] != '"'
    ensures forall i :: 0 <= i < |EscapeChar(c)| && EscapeChar(c)[i] == '&' ==> i == 0 && EntityAt(EscapeChar(c) + t, 0)
  {
    var h := EscapeChar(c);
    assert (h + t)[0..] == h + t;
    if IsSpecial(c) {
      assert IsPrefix(h, h + t);
    }
  }

  /** Replaces `&`, `<`, `>` and `"` by their entities. The result holds none
      of `<`, `>`, `"`, and every `&` in it opens an entity. */
  function EscapeText(s: string): (r: string)
    ensures forall i :: 0 <= i < |r| ==> r[i] != '<' && r[i] != '>' && r[i] != '"'
    ensures forall i :: 0 <= i < |r| && r[i] == '&' ==> EntityAt(r, i)
    decreases |s|
  {
    if |s| == 0 then ""
    else
      var h := EscapeChar(s[0]);
      var t := EscapeText(s[1..]);
      EntityShift(h, t);
      EscapeCharSafe(s[0], t);
      assert forall i :: 0 <= i < |h| ==> (h + t)[i] == h[i];
      h + t
  }

  /** Escaping never shortens text, and leaves it unchanged exactly when it
      holds none of the four special characters. */
  lemma {:induction false} EscapeTextUnchanged(s: string)
    ensures |EscapeText(s)| >= |s|
    ensures EscapeText(s) == s <==> NoSpecial(s)
    decreases |s|
  {
    if |s| > 0 {
      EscapeTextUnchanged(s[1..]);
      assert NoSpecial(s) <==> !IsSpecial(s[0]) && NoSpecial(s[1..]) by {
        assert forall i :: 0 < i < |s| ==> s[i] == s[1..][i - 1];
      }
      assert [s[0]] + s[1..] == s;
    }
  }

  /** `escapeHtml(value)`: escapes `String(value || '')`. */
  function EscapeHtml(v: Json): string {
    EscapeText(OrStr(Some(v), ""))
  }

  /** Decodes the four entities `escapeHtml` emits; the inverse of `EscapeText`. */
  function UnescapeText(s: string): string
    decreases |s|
  {
    if |s| == 0 then ""
    else if IsPrefix("&amp;", s) then "&" + UnescapeText(s[5..])
    else if IsPrefix("&lt;", s) then "<" + UnescapeText(s[4..])
    else if IsPrefix("&gt;", s) then ">" + UnescapeText(s[4..])
    else if IsPrefix("&quot;", s) then "\"" + UnescapeText(s[6..])
    else [s[0]] + UnescapeText(s[1..])
  }

  /** Decoding an entity followed by any text yields its character
      followed by the decoding of the text. */
  lemma UnescapeEntity(e: string, c: char, t: string)
    requires (e, c) in {("&amp;", '&'), ("&lt;", '<'), ("&gt;", '>'), ("&quot;", '"')}
    ensures UnescapeText(e + t) == [c] + UnescapeText(t)
  {
    var x := e + t;
    assert x[|e|..] == t;
    assert x[..|e|] == e;
    if e == "&amp;" {
    } else if e == "&lt;" {
      assert x[1] == 'l';
    } else if e == "&gt;" {
      assert x[1] == 'g';
    } else {
      assert x[1] == 'q';
    }
  }

  /** Decoding the replacement of one character, followed by any text, yields
      that character followed by the decoding of the text. */
  lemma UnescapeAfterChar(c: char, t: string)
    ensures UnescapeText(EscapeChar(c) + t) == [c] + UnescapeText(t)
  {
    if c == '&' || c == '<' || c == '>' || c == '"' {
      UnescapeEntity(EscapeChar(c), c, t);
    } else {
      var x := [c] + t;
      assert x[0] == c && x[1..] == t;
    }
  }

  /** Decoding what `escapeHtml` emits recovers the original text. */
  lemma {:induction false} UnescapeEscape(s: string)
    ensures UnescapeText(EscapeText(s)) == s
    decreases |s|
  {
    if |s| > 0 {
      UnescapeAfterChar(s[0], EscapeText(s[1..]));
      UnescapeEscape(s[1..]);
      assert [s[0]] + s[1..] == s;
    }
  }

  /** `escapeHtml(value)` decodes to `String(value || '')`. */
  lemma EscapeHtmlRoundTrip(v: Json)
    ensures UnescapeText(EscapeHtml(v)) == OrStr(Some(v), "")
  {
    UnescapeEscape(OrStr(Some(v), ""));
  }

  // ---------------------------------------------------------------------------
  // safe (the order page)
  // ---------------------------------------------------------------------------

  predicate IsAngle(c: char) {
    c == '<' || c == '>'
  }

  predicate NoAngles(s: string) {
    forall i :: 0 <= i < |s| ==> !IsAngle(s[i])
  }

  /** Deletes every `<` and `>`. The result holds no angle bracket and is its
      input exactly when the input held none. */
  function StripAngles(s: string): (r: string)
    ensures NoAngles(r)
    ensures |r| <= |s|
    ensures r == s <==> NoAngles(s)
    decreases |s|
  {
    if |s| == 0 then ""
    else
      var t := StripAngles(s[1..]);
      assert NoAngles(s) <==> !IsAngle(s[0]) && NoAngles(s[1..]) by {
        assert forall i :: 0 < i < |s| ==> s[i] == s[1..][i - 1];
      }
      assert NoAngles(s) ==> [s[0]] + t == s by {
        if NoAngles(s) {
          assert [s[0]] + s[1..] == s;
        }
      }
      (if IsAngle(s[0]) then "" else [s[0]]) + t
  }

  /** Stripping works character by character: it distributes over concatenation. */
  lemma {:induction false} StripAnglesAppend(a: string, b: string)
    ensures StripAngles(a + b) == StripAngles(a) + StripAngles(b)
    decreases |a|
  {
    if |a| > 0 {
      assert (a + b)[1..] == a[1..] + b;
      StripAnglesAppend(a[1..], b);
    } else {
      assert a + b == b;
    }
  }

  /** Stripping keeps every other character, in order and as often as it
      occurs: together with `NoAngles` of the result this fixes it exactly. */
  lemma StripAnglesKeepsOthers(s: string)
    ensures SubsequenceOf(StripAngles(s), s)
    ensures forall c :: multiset(StripAngles(s))[c] == if IsAngle(c) then 0 else multiset(s)[c]
  {
    StripAnglesInOrder(s);
    StripAnglesCounts(s);
  }

  lemma {:induction false} StripAnglesInOrder(s: string)
    ensures SubsequenceOf(StripAngles(s), s)
    decreases |s|
  {
    if |s| > 0 {
      StripAnglesInOrder(s[1..]);
      var r := StripAngles(s);
      if !IsAngle(s[0]) {
        assert r[0] == s[0] && r[1..] == StripAngles(s[1..]);
      } else {
        assert r == StripAngles(s[1..]);
      }
    }
  }

  lemma {:induction false} StripAnglesCounts(s: string)
    ensures forall c :: multiset(StripAngles(s))[c] == if IsAngle(c) then 0 else multiset(s)[c]
    decreases |s|
  {
    if |s| > 0 {
      StripAnglesCounts(s[1..]);
      assert s == [s[0]] + s[1..];
      assert multiset(s) == multiset([s[0]]) + multiset(s[1..]);
    }
  }

  /** Stripping is idempotent. */
  lemma StripAnglesIdempotent(s: string)
    ensures StripAngles(StripAngles(s)) == StripAngles(s)
  {
  }

  /** `safe(value)`: `String(value || '')` with every angle bracket removed. */
  function Safe(v: Option<Json>): (r: string)
    ensures NoAngles(r)
  {
    StripAngles(OrStr(v, ""))
  }

  /** A present string value without angle brackets is shown verbatim. */
  lemma SafeShowsPlainText(s: string)
    requires NoAngles(s)
    ensures Safe(Some(JStr(s))) == s
  {
  }

  // ---------------------------------------------------------------------------
  // buildNotificationMessage
  // ---------------------------------------------------------------------------

  /** The line of the plain-text message for detail field `k`. */
  function DetailLine(order: Order, k: nat): string
    requires k < |DetailFields|
  {
    DetailFields[k].0 + ": " + OrStr(Detail(order, DetailFields[k].1), "-")
  }

  /** The lines of the first `n` detail fields. */
  function DetailLines(order: Order, n: nat): (r: seq<string>)
    requires n <= |DetailFields|
    ensures |r| == n && forall k :: 0 <= k < n ==> r[k] == DetailLine(order, k)
  {
    if n == 0 then [] else DetailLines(order, n - 1) + [DetailLine(order, n - 1)]
  }

  /** `orderUrl || '-'`. */
  function OrderUrlOrDash(order: Order): string {
    if order.orderUrl != "" then order.orderUrl else "-"
  }

  /** The eighteen lines of the plain-text notification. */
  function NotificationLines(order: Order): (r: seq<string>)
    ensures |r| == 18
  {
    ["New Nemora order", "ID: " + order.id, "Created: " + order.createdAt]
    + DetailLines(order, 13)
    + ["File: " + ToStr(order.fileUrl), "Order: " + OrderUrlOrDash(order)]
  }

  /** `buildNotificationMessage(order)`: the lines joined by newlines. */
  function BuildNotificationMessage(order: Order): string {
    Join(NotificationLines(order), '\n')
  }

  /** Every line of the message: the header, the identity lines, one line per
      detail field showing its value or `-` when it is missing or falsy, the
      file line and the order line, which falls back to `-`. */
  lemma NotificationLinesContent(order: Order)
    ensures NotificationLines(order)[0] == "New Nemora order"
    ensures NotificationLines(order)[1] == "ID: " + order.id
    ensures NotificationLines(order)[2] == "Created: " + order.createdAt
    ensures forall k :: 0 <= k < 13 ==>
      NotificationLines(order)[3 + k] ==
        DetailFields[k].0 + ": "
        + (if Present(Detail(order, DetailFields[k].1))
           then ToStr(Detail(order, DetailFields[k].1).value) else "-")
    ensures NotificationLines(order)[16] == "File: " + ToStr(order.fileUrl)
    ensures NotificationLines(order)[17] ==
      "Order: " + (if order.orderUrl == "" then "-" else order.orderUrl)
  {
  }

  /** When no field value contains a newline, splitting the message on
      newlines gives back exactly its eighteen lines. */
  lemma NotificationMessageSplits(order: Order)
    requires forall k :: 0 <= k < 18 ==> '\n' !in NotificationLines(order)[k]
    ensures Split(BuildNotificationMessage(order), '\n') == NotificationLines(order)
  {
    SplitJoin(NotificationLines(order), '\n');
  }

  // ---------------------------------------------------------------------------
  // buildEmailHtml
  // ---------------------------------------------------------------------------

  /** The e-mail row of detail field `k`: its label and its value or `-`. */
  function DetailRow(order: Order, k: nat): (string, Json)
    requires k < |DetailFields|
  {
    (DetailFields[k].0, OrJson(Detail(order, DetailFields[k].1), JStr("-")))
  }

  /** The rows of the first `n` detail fields. */
  function DetailRows(order: Order, n: nat): (r: seq<(string, Json)>)
    requires n <= |DetailFields|
    ensures |r| == n && forall k :: 0 <= k < n ==> r[k] == DetailRow(order, k)
  {
    if n == 0 then [] else DetailRows(order, n - 1) + [DetailRow(order, n - 1)]
  }

  /** The seventeen (label, value) rows of the e-mail table. */
  function EmailRows(order: Order): (r: seq<(string, Json)>)
    ensures |r| == 17
  {
    [("ID", JStr(order.id)), ("Created", JStr(order.createdAt))]
    + DetailRows(order, 13)
    + [("File", if Truthy(order.fileUrl) then order.fileUrl else JStr("-")),
       ("Order", JStr(OrderUrlOrDash(order)))]
  }

  /** A row's value cell is a link: the File or Order row with a truthy value
      other than `-`. */
  predicate IsLinkRow(caption: string, value: Json) {
    (caption == "File" || caption == "Order") && Truthy(value) && value != JStr("-")
  }

  const LabelCellOpen := "<tr><td style=\"padding:6px 10px;color:#6b7280;font-weight:600;\">"
  const ValueCellOpen := "</td><td style=\"padding:6px 10px;color:#111827;\">"
  const RowClose := "</td></tr>"

  /** The value cell of one row. */
  function CellHtml(caption: string, value: Json): string {
    var safeValue := EscapeHtml(value);
    if IsLinkRow(caption, value) then "<a href=\"" + safeValue + "\">" + safeValue + "</a>"
    else safeValue
  }

  /** The `<tr>` of one row. */
  function RowHtml(caption: string, value: Json): string {
    LabelCellOpen + EscapeText(caption) + ValueCellOpen + CellHtml(caption, value) + RowClose
  }

  /** The `<tr>` of every row, in order. */
  function RowHtmls(rows: seq<(string, Json)>): (r: seq<string>)
    ensures |r| == |rows|
  {
    if rows == [] then []
    else [RowHtml(rows[0].0, rows[0].1)] + RowHtmls(rows[1..])
  }

  /** Entry `i` of the rendered rows is row `i`'s `<tr>`. */
  lemma {:induction false} RowHtmlsAt(rows: seq<(string, Json)>, i: nat)
    requires i < |rows|
    ensures RowHtmls(rows)[i] == RowHtml(rows[i].0, rows[i].1)
    decreases i
  {
    if i > 0 {
      RowHtmlsAt(rows[1..], i - 1);
    }
  }

  function RowsHtml(order: Order): string {
    Concat(RowHtmls(EmailRows(order)))
  }

  const PreviewOpen :=
    "\n"
    + "        <div style=\"margin-top:16px;\">\n"
    + "          <div style=\"margin-bottom:8px;color:#6b7280;font-weight:600;\">Design preview</div>\n"
    + "          "
  const PreviewImgOpen := "<img src=\"cid:"
  const PreviewClose :=
    "\" alt=\"Design preview\" style=\"max-width:100%; border-radius:12px; border:1px solid #e5e7eb;\" />\n"
    + "        </div>\n"
    + "      "

  /** The inline-preview block, empty when there is no content id. */
  function PreviewHtml(previewCid: string): string {
    if previewCid == "" then ""
    else PreviewOpen + (PreviewImgOpen + EscapeText(previewCid)) + PreviewClose
  }

  const EmailPieces: seq<string> := [
    "\n"
    + "    <div style=\"font-family:Arial, sans-serif; background:#f8fafc; padding:24px;\">\n"
    + "      <div style=\"max-width:680px; margin:0 auto; background:#ffffff; border-radius:12px; padding:24px; border:1px solid #e5e7eb;\">\n"
    + "        <h2 style=\"margin:0 0 16px; color:#111827;\">New Nemora order</h2>\n"
    + "        <table style=\"width:100%; border-collapse:collapse;\">\n"
    + "          ",
    "\n        </table>\n        ",
    "\n      </div>\n    </div>\n  "
  ]

  /** The e-mail body around a rendered table and preview block. */
  function EmailHtmlOf(rowsHtml: string, previewHtml: string): string {
    Interpolate(EmailPieces, [rowsHtml, previewHtml])
  }

  /** `buildEmailHtml(order, previewCid)`. */
  function BuildEmailHtml(order: Order, previewCid: string): string {
    EmailHtmlOf(RowsHtml(order), PreviewHtml(previewCid))
  }

  /** Once a string contains `p + v`, it contains `v`. */
  lemma ContainsTail(s: string, p: string, v: string)
    requires Contains(s, p + v)
    ensures Contains(s, v)
  {
    ContainsSelf(v);
    ContainsInContext(p, v, "", v);
    assert p + v + "" == p + v;
    ContainsTrans(s, p + v, v);
  }

  /** The e-mail body contains both the table rows and the preview block. */
  lemma EmailHtmlContainsParts(rowsHtml: string, previewHtml: string)
    ensures Contains(EmailHtmlOf(rowsHtml, previewHtml), rowsHtml)
    ensures Contains(EmailHtmlOf(rowsHtml, previewHtml), previewHtml)
  {
    var values := [rowsHtml, previewHtml];
    InterpolateContains(EmailPieces, values, 0);
    ContainsTail(EmailHtmlOf(rowsHtml, previewHtml), EmailPieces[0], rowsHtml);
    InterpolateContains(EmailPieces, values, 1);
    ContainsTail(EmailHtmlOf(rowsHtml, previewHtml), EmailPieces[1], previewHtml);
  }

  /** A row's `<tr>` contains its value escaped, as a link or as plain text. */
  lemma RowContainsEscapedValue(caption: string, value: Json)
    ensures Contains(RowHtml(caption, value), EscapeHtml(value))
  {
    var cell := CellHtml(caption, value);
    var e := EscapeHtml(value);
    ContainsSelf(e);
    if IsLinkRow(caption, value) {
      ContainsInContext("<a href=\"", e, "\">" + e + "</a>", e);
      assert "<a href=\"" + e + ("\">" + e + "</a>") == cell;
    } else {
      ContainsInContext("", e, "", e);
      assert "" + e + "" == cell;
    }
    ContainsInContext(LabelCellOpen + EscapeText(caption) + ValueCellOpen, cell, RowClose, e);
    assert LabelCellOpen + EscapeText(caption) + ValueCellOpen + cell + RowClose == RowHtml(caption, value);
  }

  /** The text notification and the e-mail table agree line for line: line
      `i + 1` of the message is row `i`'s label, `: ` and the string form of
      its value. The one exception is the File row when the file URL is falsy,
      which the e-mail shows as `-`. */
  lemma TextAndEmailAgree(order: Order)
    ensures forall i :: 0 <= i < 17 && (i != 15 || Truthy(order.fileUrl)) ==>
      NotificationLines(order)[i + 1] == EmailRows(order)[i].0 + ": " + ToStr(EmailRows(order)[i].1)
    ensures !Truthy(order.fileUrl) ==> EmailRows(order)[15] == ("File", JStr("-"))
  {
    var head: seq<string> := ["New Nemora order", "ID: " + order.id, "Created: " + order.createdAt];
    var details := DetailLines(order, 13);
    var tail := ["File: " + ToStr(order.fileUrl), "Order: " + OrderUrlOrDash(order)];
    assert NotificationLines(order) == head + details + tail;
    var rowHead := [("ID", JStr(order.id)), ("Created", JStr(order.createdAt))];
    var rowDetails := DetailRows(order, 13);
    var rowTail := [("File", if Truthy(order.fileUrl) then order.fileUrl else JStr("-")),
                    ("Order", JStr(OrderUrlOrDash(order)))];
    assert EmailRows(order) == rowHead + rowDetails + rowTail;
    forall i | 0 <= i < 17 && (i != 15 || Truthy(order.fileUrl))
      ensures NotificationLines(order)[i + 1] == EmailRows(order)[i].0 + ": " + ToStr(EmailRows(order)[i].1)
    {
      if 2 <= i < 15 {
        assert NotificationLines(order)[i + 1] == details[i - 2];
        assert EmailRows(order)[i] == rowDetails[i - 2];
        DetailRowAgrees(order, i - 2);
      } else if i < 2 {
        assert NotificationLines(order)[i + 1] == head[i + 1];
        assert EmailRows(order)[i] == rowHead[i];
      } else {
        assert NotificationLines(order)[i + 1] == tail[i - 15];
        assert EmailRows(order)[i] == rowTail[i - 15];
      }
    }
  }

  /** A detail line of the message is the detail row of the e-mail as text. */
  lemma DetailRowAgrees(order: Order, k: nat)
    requires k < 13
    ensures DetailLine(order, k)
            == DetailFields[k].0 + ": " + ToStr(OrJson(Detail(order, DetailFields[k].1), JStr("-")))
  {
  }

  /** Only the File and Order rows can be links: the File row exactly when the
      file URL is truthy and not `-`, the Order row exactly when the order URL
      is neither empty nor `-`. */
  lemma EmailLinks(order: Order)
    ensures forall i :: 0 <= i < 15 ==> !IsLinkRow(EmailRows(order)[i].0, EmailRows(order)[i].1)
    ensures IsLinkRow(EmailRows(order)[15].0, EmailRows(order)[15].1)
      <==> Truthy(order.fileUrl) && order.fileUrl != JStr("-")
    ensures IsLinkRow(EmailRows(order)[16].0, EmailRows(order)[16].1)
      <==> order.orderUrl != "" && order.orderUrl != "-"
  {
    var rows := EmailRows(order);
    assert forall k :: 0 <= k < 13 ==> DetailFields[k].0 != "File" && DetailFields[k].0 != "Order";
  }

  /** Every row's value reaches the e-mail escaped: the e-mail contains the
      escaped text, which holds no raw `<`, `>` or `"` and decodes back to
      `String(value || '')`. */
  lemma EmailShowsEveryRowEscaped(order: Order, previewCid: string, i: nat)
    requires i < 17
    ensures Contains(BuildEmailHtml(order, previewCid), EscapeHtml(EmailRows(order)[i].1))
    ensures UnescapeText(EscapeHtml(EmailRows(order)[i].1)) == OrStr(Some(EmailRows(order)[i].1), "")
  {
    var row := EmailRows(order)[i];
    var rows := RowHtmls(EmailRows(order));
    var html := BuildEmailHtml(order, previewCid);
    RowContainsEscapedValue(row.0, row.1);
    ConcatContains(rows, i);
    RowHtmlsAt(EmailRows(order), i);
    ContainsTrans(RowsHtml(order), rows[i], EscapeHtml(row.1));
    EmailHtmlContainsParts(RowsHtml(order), PreviewHtml(previewCid));
    ContainsTrans(html, RowsHtml(order), EscapeHtml(row.1));
    EscapeHtmlRoundTrip(row.1);
  }

  /** A non-empty preview block shows the image `cid:<escaped id>`. */
  lemma PreviewShowsImage(previewCid: string)
    requires previewCid != ""
    ensures Contains(PreviewHtml(previewCid), PreviewImgOpen + EscapeText(previewCid))
  {
    var img := PreviewImgOpen + EscapeText(previewCid);
    ContainsSelf(img);
    ContainsInContext(PreviewOpen, img, PreviewClose, img);
  }

  /** The e-mail carries a preview block exactly when a content id is given,
      and then shows the image `cid:<escaped id>`. */
  lemma EmailPreview(order: Order, previewCid: string)
    ensures PreviewHtml(previewCid) == "" <==> previewCid == ""
    ensures previewCid != "" ==>
      Contains(BuildEmailHtml(order, previewCid), PreviewImgOpen + EscapeText(previewCid))
  {
    var p := PreviewHtml(previewCid);
    if previewCid != "" {
      assert |p| >= |PreviewOpen| > 0;
      PreviewShowsImage(previewCid);
      EmailHtmlContainsParts(RowsHtml(order), p);
      ContainsTrans(BuildEmailHtml(order, previewCid), p, PreviewImgOpen + EscapeText(previewCid));
    }
  }

  // ---------------------------------------------------------------------------
  // GET /orders/:id page
  // ---------------------------------------------------------------------------

  /** The literal text in front of a labelled row of the page. */
  function PageRowOpen(caption: string): string {
    "</div>\n          <div class=\"row\"><strong>" + caption + ":</strong> "
  }

  const PageHead := "\n    <html>\n      <head>\n        <meta charset=\"utf-8\" />\n        <title>Nemora Order "
  const PageStyleAndId :=
    "</title>\n"
    + "        <style>\n"
    + "          body { font-family: Arial, sans-serif; background: #0b1220; color: #f8fafc; padding: 24px; }\n"
    + "          .card { max-width: 720px; margin: 0 auto; background: #111827; border-radius: 16px; padding: 24px; }\n"
    + "          h1 { margin: 0 0 16px; }\n"
    + "          .row { margin-bottom: 10px; color: #cbd5f5; }\n"
    + "          a { color: #60a5fa; }\n"
    + "          img { max-width: 100%; border-radius: 12px; margin-top: 16px; }\n"
    + "        </style>\n"
    + "      </head>\n"
    + "      <body>\n"
    + "        <div class=\"card\">\n"
    + "          <h1>Nemora Order</h1>\n"
    + "          <div class=\"row\"><strong>ID:</strong> "
  const PageLinkOpenFile := "</div>\n          <div class=\"row\"><strong>File:</strong> <a href=\""
  const PageLinkMid := "\">"
  const PageLinkOpenOrder := "</a></div>\n          <div class=\"row\"><strong>Order:</strong> <a href=\""
  const PageImgOpen := "</a></div>\n          <img src=\""
  const PageTail := "\" alt=\"Design preview\" />\n        </div>\n      </body>\n    </html>\n  "

  /** The row openings of the first `n` detail fields. */
  function DetailRowOpens(n: nat): (r: seq<string>)
    requires n <= |DetailFields|
    ensures |r| == n && forall k :: 0 <= k < n ==> r[k] == PageRowOpen(DetailFields[k].0)
  {
    if n == 0 then [] else DetailRowOpens(n - 1) + [PageRowOpen(DetailFields[n - 1].0)]
  }

  /** The `safe` values of the first `n` detail fields. */
  function SafeDetails(order: Order, n: nat): (r: seq<string>)
    requires n <= |DetailFields|
    ensures |r| == n
    ensures forall k :: 0 <= k < n ==> NoAngles(r[k])
  {
    if n == 0 then [] else SafeDetails(order, n - 1) + [Safe(Detail(order, DetailFields[n - 1].1))]
  }

  /** Entry `k` of `SafeDetails` is the `safe` value of detail field `k`. */
  lemma {:induction false} SafeDetailsAt(order: Order, n: nat, k: nat)
    requires k < n <= |DetailFields|
    ensures SafeDetails(order, n)[k] == Safe(Detail(order, DetailFields[k].1))
    decreases n
  {
    if k < n - 1 {
      SafeDetailsAt(order, n - 1, k);
    }
  }

  /** The 22 literal pieces of the page template. */
  function PagePieces(): (r: seq<string>)
    ensures |r| == 22
  {
    [PageHead, PageStyleAndId, PageRowOpen("Created")]
    + DetailRowOpens(13)
    + [PageLinkOpenFile, PageLinkMid, PageLinkOpenOrder, PageLinkMid, PageImgOpen, PageTail]
  }

  /** The values before the detail rows: the id (title and first row) and
      the creation time. */
  function PageHeadValues(order: Order): (r: seq<string>)
    ensures |r| == 3 && forall i :: 0 <= i < 3 ==> NoAngles(r[i])
  {
    var id := Safe(Some(JStr(order.id)));
    [id, id, Safe(Some(JStr(order.createdAt)))]
  }

  /** The values after the detail rows: the file link and its label, the
      order link and its label, and the preview image. */
  function PageTailValues(order: Order): (r: seq<string>)
    ensures |r| == 5 && forall i :: 0 <= i < 5 ==> NoAngles(r[i])
  {
    var fileUrl := Safe(Some(order.fileUrl));
    var orderUrl := Safe(Some(JStr(order.orderUrl)));
    [fileUrl, Safe(Some(OrJson(Some(order.fileName), order.fileUrl))), orderUrl, orderUrl, fileUrl]
  }

  /** The 21 values interpolated into the page, each passed through `safe`. */
  function PageValues(order: Order): (r: seq<string>)
    ensures |r| == 21
  {
    PageHeadValues(order) + SafeDetails(order, 13) + PageTailValues(order)
  }

  /** The HTML page of one stored order. */
  function OrderPageHtml(order: Order): string {
    Interpolate(PagePieces(), PageValues(order))
  }

  /** No value the page interpolates holds an angle bracket, so none can
      open or close a tag. */
  lemma PageValuesAngleFree(order: Order)
    ensures forall i :: 0 <= i < 21 ==> NoAngles(PageValues(order)[i])
  {
    var v := PageValues(order);
    var head := PageHeadValues(order);
    var details := SafeDetails(order, 13);
    var tail := PageTailValues(order);
    forall i | 0 <= i < 21
      ensures NoAngles(v[i])
    {
      if i < 3 {
        assert v[i] == head[i];
      } else if i < 16 {
        assert v[i] == details[i - 3];
      } else {
        assert v[i] == tail[i - 16];
      }
    }
  }

  /** The page shows every detail field under its label: the label's row is
      followed directly by the field's value with angle brackets removed
      (empty when the field is missing or falsy). */
  lemma OrderPageShowsDetail(order: Order, k: nat)
    requires k < 13
    ensures Contains(OrderPageHtml(order),
      PageRowOpen(DetailFields[k].0) + Safe(Detail(order, DetailFields[k].1)))
  {
    var v := PageValues(order);
    var details := SafeDetails(order, 13);
    assert v[3..16] == details;
    assert v[3 + k] == details[k];
    SafeDetailsAt(order, 13, k);
    InterpolateContains(PagePieces(), v, 3 + k);
  }

  /** The page links to the uploaded file, labelled with the file name when
      there is one and the file URL otherwise, and to the order itself. */
  lemma OrderPageLinks(order: Order)
    ensures Contains(OrderPageHtml(order), PageLinkOpenFile + Safe(Some(order.fileUrl)))
    ensures Contains(OrderPageHtml(order),
      PageLinkMid + Safe(Some(if Truthy(order.fileName) then order.fileName else order.fileUrl)))
    ensures Contains(OrderPageHtml(order), PageLinkOpenOrder + Safe(Some(JStr(order.orderUrl))))
  {
    var pieces := PagePieces();
    var values := PageValues(order);
    var tailPieces := [PageLinkOpenFile, PageLinkMid, PageLinkOpenOrder, PageLinkMid, PageImgOpen, PageTail];
    var tailValues := PageTailValues(order);
    assert pieces[16..] == tailPieces;
    assert values[16..] == tailValues;
    assert pieces[16] == tailPieces[0] && pieces[17] == tailPieces[1] && pieces[18] == tailPieces[2];
    assert values[16] == tailValues[0] && values[17] == tailValues[1] && values[18] == tailValues[2];
    InterpolateContains(pieces, values, 16);
    InterpolateContains(pieces, values, 17);
    InterpolateContains(pieces, values, 18);
  }
}
