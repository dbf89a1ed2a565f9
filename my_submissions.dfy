/** The page listing the dishes a user submitted (frontend/src/pages/MySubmissions/MySubmissions.jsx):
    the rows of the current user, the counts by status, and the status badge. */
module MySubmissions {
  import opened Common

  /** A row of the backend's answer, as far as the page reads it for these purposes. */
  datatype Submission = Submission(submittedBy: JsValue, status: string)

  datatype Stats = Stats(total: nat, approved: nat, pending: nat, rejected: nat)

  datatype Loaded = Loaded(submissions: seq<Submission>, stats: Stats)

  const ApprovedStatus := "approved"
  const PendingStatus := "pending"
  const RejectedStatus := "rejected"

  function HasStatus(status: string): Submission -> bool {
    (d: Submission) => d.status == status
  }

  function SubmittedBy(userId: JsValue): Submission -> bool {
    (d: Submission) => d.submittedBy == userId
  }

  predicate KnownStatus(status: string) {
    status == ApprovedStatus || status == PendingStatus || status == RejectedStatus
  }

  /** `user.id || user.sub`: the id when it is truthy, the subject otherwise. */
  function CurrentUserId(id: JsValue, sub: JsValue): (r: JsValue)
    ensures Truthy(id) ==> r == id
    ensures !Truthy(id) ==> r == sub
    ensures Truthy(r) <==> Truthy(id) || Truthy(sub)
  {
    if Truthy(id) then id else sub
  }

  /** The counts shown above the list. */
  function StatsOf(submissions: seq<Submission>): (stats: Stats)
    ensures stats.total == |submissions|
    ensures stats.approved + stats.pending + stats.rejected <= stats.total
  {
    StatsBounded(submissions);
    Stats(|submissions|, Count(submissions, HasStatus(ApprovedStatus)),
      Count(submissions, HasStatus(PendingStatus)), Count(submissions, HasStatus(RejectedStatus)))
  }

  /** The three counts never exceed the number of rows. */
  lemma {:induction false} StatsBounded(s: seq<Submission>)
    ensures Count(s, HasStatus(ApprovedStatus)) + Count(s, HasStatus(PendingStatus)) + Count(s, HasStatus(RejectedStatus)) <= |s|
  {
    if s != [] {
      StatsBounded(s[1..]);
    }
  }

  /** The counts add up to the total exactly when every row has one of the three statuses. */
  lemma {:induction false} StatsSumIffKnown(s: seq<Submission>)
    ensures var st := StatsOf(s);
      st.approved + st.pending + st.rejected == st.total <==> forall d :: d in s ==> KnownStatus(d.status)
  {
    if s != [] {
      StatsSumIffKnown(s[1..]);
      StatsBounded(s[1..]);
      assert forall d :: d in s <==> d == s[0] || d in s[1..];
    }
  }

  /** fetchSubmissions after a successful answer: a non-array answer counts as no rows, and only
      the rows whose submitter is strictly the current user are kept, in their order. */
  function Load(answer: Option<seq<Submission>>, userId: JsValue): (r: Loaded)
    ensures answer.None? ==> r.submissions == [] && r.stats == Stats(0, 0, 0, 0)
    ensures forall d :: d in r.submissions <==> answer.Some? && d in answer.value && d.submittedBy == userId
    ensures answer.Some? ==> |r.submissions| == Count(answer.value, SubmittedBy(userId))
    ensures r.stats.total == |r.submissions|
    ensures r.stats.approved == Count(r.submissions, HasStatus(ApprovedStatus))
    ensures r.stats.pending == Count(r.submissions, HasStatus(PendingStatus))
    ensures r.stats.rejected == Count(r.submissions, HasStatus(RejectedStatus))
  {
    var list := answer.GetOr([]);
    var mine := Filter(list, SubmittedBy(userId));
    CountIsFilterLength(list, SubmittedBy(userId));
    Loaded(mine, StatsOf(mine))
  }

  /** Loading the rows it kept again keeps them all: the filter is idempotent. */
  lemma LoadIdempotent(answer: Option<seq<Submission>>, userId: JsValue)
    ensures var once := Load(answer, userId);
      Load(Some(once.submissions), userId) == once
  {
    var once := Load(answer, userId);
    FilterKeepsAll(once.submissions, SubmittedBy(userId));
  }

  /** getStatusLabel: the Japanese captions when the language is "jp", the Vietnamese ones
      otherwise, and an unknown status shown as it is. */
  function StatusLabel(lang: string, status: string): (caption: string)
    ensures !KnownStatus(status) ==> caption == status
    ensures KnownStatus(status) ==> caption != "" && caption != ApprovedStatus && caption != PendingStatus && caption != RejectedStatus
  {
    if lang == "jp" then
      if status == PendingStatus then "審査中"
      else if status == ApprovedStatus then "承認済み"
      else if status == RejectedStatus then "却下"
      else status
    else
      if status == PendingStatus then "Chờ duyệt"
      else if status == ApprovedStatus then "Đã duyệt"
      else if status == RejectedStatus then "Đã từ chối"
      else status
  }

  /** In each language the three statuses get three different captions. */
  lemma KnownLabelsDistinct(lang: string, s1: string, s2: string)
    requires KnownStatus(s1) && KnownStatus(s2) && s1 != s2
    ensures StatusLabel(lang, s1) != StatusLabel(lang, s2)
  {
  }

  const BadgePrefix := "status-badge status-"

  /** getStatusClass: the badge class of the status, an empty status counting as pending. */
  function StatusClass(status: string): (cls: string)
    ensures StartsWith(cls, BadgePrefix)
    ensures cls[|BadgePrefix|..] == if status == "" then PendingStatus else status
  {
    BadgePrefix + (if status == "" then PendingStatus else status)
  }

  /** Different non-empty statuses get different badges, and an empty one looks pending. */
  lemma StatusClassDistinguishes(s1: string, s2: string)
    ensures StatusClass("") == StatusClass(PendingStatus)
    ensures s1 != "" && s2 != "" && s1 != s2 ==> StatusClass(s1) != StatusClass(s2)
  {
    if s1 != "" && s2 != "" && s1 != s2 {
      assert StatusClass(s1)[|BadgePrefix|..] != StatusClass(s2)[|BadgePrefix|..];
    }
  }
}
