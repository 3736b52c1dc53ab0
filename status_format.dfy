/** The two HTML snippets of src/utils.py: `format_portal_status`, which the
    review page shows next to each compared version, and `format_status_tag`,
    which is defined and tested but not called by the page. */
module StatusFormat {
  import opened Text

  /** The internal review status that marks a (batch, type) as done. */
  const Reviewed: string := "reviewed"

  /** The tag for a review status: the `status-reviewed` class and the label
      "Reviewed" for exactly the status "reviewed", the `status-not-reviewed`
      class and the label "Not Reviewed" for any other text. */
  function FormatStatusTag(status: string): (html: string)
    ensures status == Reviewed ==> Contains(html, "status-reviewed") && Contains(html, "Reviewed")
    ensures status != Reviewed ==> Contains(html, "status-not-reviewed") && Contains(html, "Not Reviewed")
  {
    var cls := if status == Reviewed then "status-reviewed" else "status-not-reviewed";
    var caption := if status == Reviewed then "Reviewed" else "Not Reviewed";
    var open := "<span class='status-tag ";
    var html := open + cls + "'>" + caption + "</span>";
    OccursAtEnd(open, cls);
    OccursExtended(open + cls, cls, |open|, "'>");
    OccursExtended(open + cls + "'>", cls, |open|, caption);
    OccursExtended(open + cls + "'>" + caption, cls, |open|, "</span>");
    OccursAtEnd(open + cls + "'>", caption);
    OccursExtended(open + cls + "'>" + caption, caption, |open + cls + "'>"|, "</span>");
    html
  }

  /** The portal-status tag: a `title` attribute holding the reason exactly
      when the reason is not empty, and the status as the text. */
  function FormatPortalStatus(status: string, reason: string): (html: string)
    ensures Contains(html, "portal-status") && Contains(html, status)
    ensures reason != "" ==> Contains(html, " title='" + reason + "'")
  {
    var tooltip := if reason != "" then " title='" + reason + "'" else "";
    var open := "<span class='portal-status'";
    var html := open + tooltip + ">" + status + "</span>";
    assert OccursAt(open, "portal-status", 13);
    OccursExtended(open, "portal-status", 13, tooltip);
    OccursExtended(open + tooltip, "portal-status", 13, ">");
    OccursExtended(open + tooltip + ">", "portal-status", 13, status);
    OccursExtended(open + tooltip + ">" + status, "portal-status", 13, "</span>");
    OccursAtEnd(open, tooltip);
    OccursExtended(open + tooltip, tooltip, |open|, ">");
    OccursExtended(open + tooltip + ">", tooltip, |open|, status);
    OccursExtended(open + tooltip + ">" + status, tooltip, |open|, "</span>");
    OccursAtEnd(open + tooltip + ">", status);
    OccursExtended(open + tooltip + ">" + status, status, |open + tooltip + ">"|, "</span>");
    html
  }

  /** The tag tells "reviewed" apart from every other status, and renders all
      other statuses (the default "not-reviewed" among them) alike. */
  lemma StatusTagDistinguishes(status: string)
    ensures FormatStatusTag(status) == FormatStatusTag(Reviewed) <==> status == Reviewed
    ensures status != Reviewed ==> FormatStatusTag(status) == FormatStatusTag("not-reviewed")
  {
    if status != Reviewed {
      assert |FormatStatusTag(status)| != |FormatStatusTag(Reviewed)|;
    }
  }

  /** Without a reason there is no title attribute: the tag is exactly the
      status wrapped in the `portal-status` span. */
  lemma PortalStatusWithoutReason(status: string)
    ensures FormatPortalStatus(status, "") == "<span class='portal-status'>" + status + "</span>"
  {
  }
}
