/**
 * main.go's `createMessage`: one notification text per feed event, chosen
 * by the event's type name. The texts are HTML for the chat room, with the
 * program's Japanese sentences.
 */
module Messages {
  import opened Digits

  /**
   * The fields of a feed event that the core reads. `issue` is the issue
   * number, a float64 in the feed that `%.0f` prints without a fraction.
   */
  datatype Event = Event(
    username: string,       // Actor.Github.Username
    organization: string,
    repository: string,
    issue: nat,
    kind: string,           // the JSON "type" field (TypeName)
    srcPipeline: string,
    destPipeline: string,
    createdAt: string)

  predicate KnownKind(kind: string) {
    kind == "createPlus" || kind == "transferIssue" || kind == "createBoard"
  }

  /** The link to the actor's GitHub profile that opens every known kind's message. */
  function ProfileLink(e: Event): string {
    "<a href='https://github.com/" + e.username + "'>" + e.username + "</a>"
  }

  /** The link to the issue, labelled "repository/number". */
  function IssueLink(e: Event): string {
    var n := Decimal(e.issue);
    "<a href='https://github.com/" + e.organization + "/" + e.repository + "/issues/" + n + "'>"
      + e.repository + "/" + n + "</a>"
  }

  /** main.go's `createMessage`. */
  function CreateMessage(e: Event): string {
    match e.kind
    case "createPlus" =>
      ProfileLink(e) + " が " + IssueLink(e) + " に <b>+1</b> しました。\n"
    case "transferIssue" =>
      if e.srcPipeline == e.destPipeline then
        ProfileLink(e) + " が " + e.srcPipeline + " 内で " + IssueLink(e)
          + " の <b>優先順位を変更</b> しました。\n"
      else
        ProfileLink(e) + " が " + IssueLink(e) + " を <b>" + e.srcPipeline + "</b> から <b>"
          + e.destPipeline + "</b> に移動しました。\n"
    case "createBoard" =>
      ProfileLink(e) + " が " + IssueLink(e) + " の <b>ボードを作成</b> しました。\n"
    case _ =>
      "[Unknown] type = " + e.kind + "\n"
  }

  predicate OccursAt(sub: string, s: string, i: nat) {
    i + |sub| <= |s| && s[i..i + |sub|] == sub
  }

  predicate Contains(s: string, sub: string) {
    exists i: nat | i <= |s| :: OccursAt(sub, s, i)
  }

  predicate StartsWith(s: string, prefix: string) {
    |prefix| <= |s| && s[..|prefix|] == prefix
  }

  predicate EndsWith(s: string, suffix: string) {
    |suffix| <= |s| && s[|s| - |suffix|..] == suffix
  }

  lemma Infix(x: string, y: string, z: string)
    ensures OccursAt(y, x + y + z, |x|) && Contains(x + y + z, y)
  {
    assert (x + y + z)[|x|..|x| + |y|] == y;
    assert OccursAt(y, x + y + z, |x|);
  }

  lemma ContainsTransitive(s: string, mid: string, sub: string)
    requires Contains(s, mid) && Contains(mid, sub)
    ensures Contains(s, sub)
  {
    var i: nat :| i <= |s| && OccursAt(mid, s, i);
    var j: nat :| j <= |mid| && OccursAt(sub, mid, j);
    forall k | 0 <= k < |sub|
      ensures s[i + j + k] == sub[k]
    {
      assert s[i + j + k] == mid[j + k];
    }
    assert s[i + j..i + j + |sub|] == sub;
    assert OccursAt(sub, s, i + j);
  }

  lemma ContainsInLeft(u: string, v: string, x: string)
    requires Contains(u, x)
    ensures Contains(u + v, x)
  {
    var i: nat :| i <= |u| && OccursAt(x, u, i);
    assert (u + v)[i..i + |x|] == u[i..i + |x|];
    assert OccursAt(x, u + v, i);
  }

  lemma ContainsInRight(u: string, v: string, x: string)
    requires Contains(v, x)
    ensures Contains(u + v, x)
  {
    var i: nat :| i <= |v| && OccursAt(x, v, i);
    assert (u + v)[|u| + i..|u| + i + |x|] == v[i..i + |x|];
    assert OccursAt(x, u + v, |u| + i);
  }

  lemma ContainsWhole(x: string)
    ensures Contains(x, x)
  {
    assert x[0..|x|] == x;
    assert OccursAt(x, x, 0);
  }

  /** Each of x, y and w occurs in a + x + b + y + c + w + d. */
  lemma ThreeInfixes(s: string, a: string, x: string, b: string, y: string, c: string, w: string, d: string)
    requires s == a + x + b + y + c + w + d
    ensures Contains(s, x) && Contains(s, y) && Contains(s, w)
  {
    var axb, axbyc := a + x + b, a + x + b + y + c;
    Infix(a, x, b);
    ContainsWhole(y);
    ContainsInLeft(axb, y, x);
    ContainsInRight(axb, y, y);
    ContainsInLeft(axb + y, c, x);
    ContainsInLeft(axb + y, c, y);
    ContainsWhole(w);
    ContainsInLeft(axbyc, w, x);
    ContainsInLeft(axbyc, w, y);
    ContainsInRight(axbyc, w, w);
    ContainsInLeft(axbyc + w, d, x);
    ContainsInLeft(axbyc + w, d, y);
    ContainsInLeft(axbyc + w, d, w);
  }

  /** The profile link names the actor; the issue link names the organization, the repository and the number. */
  lemma LinksNameTheirFields(e: Event)
    ensures Contains(ProfileLink(e), e.username)
    ensures Contains(IssueLink(e), e.organization)
    ensures Contains(IssueLink(e), e.repository)
    ensures Contains(IssueLink(e), Decimal(e.issue))
  {
    var a := "<a href='https://github.com/";
    Infix(a, e.username, "'>" + e.username + "</a>");
    assert ProfileLink(e) == a + e.username + ("'>" + e.username + "</a>");
    var n := Decimal(e.issue);
    ThreeInfixes(IssueLink(e), a, e.organization, "/", e.repository, "/issues/", n,
                 "'>" + e.repository + "/" + n + "</a>");
  }

  /** A message made of the profile link, some text, the issue link and a tail. */
  lemma LinkedSentence(m: string, p: string, x: string, l: string, tail: string)
    requires m == p + x + l + tail
    ensures StartsWith(m, p) && Contains(m, p) && Contains(m, l)
  {
    Infix("", p, x + l + tail);
    assert m == "" + p + (x + l + tail);
    Infix(p + x, l, tail);
  }

  lemma EndsWithAppend(a: string, b: string)
    ensures EndsWith(a + b, b)
  {
    assert (a + b)[|a + b| - |b|..] == b;
  }

  /** In a string that ends with x + y + z, y occurs right after x. */
  lemma OccursInSuffix(m: string, x: string, y: string, z: string)
    requires EndsWith(m, x + y + z)
    ensures OccursAt(y, m, |m| - |x + y + z| + |x|) && Contains(m, y)
  {
    var k := |m| - |x + y + z|;
    forall i | 0 <= i < |y|
      ensures m[k + |x| + i] == y[i]
    {
      assert m[k + |x| + i] == m[k..][|x| + i] == (x + y + z)[|x| + i];
    }
    assert m[k + |x|..k + |x| + |y|] == y;
  }

  /** In a string that ends with a + x + b + y + c, with b not empty, x occurs before y, and b occurs. */
  lemma TwoNamesInOrder(m: string, a: string, x: string, b: string, y: string, c: string)
    requires EndsWith(m, a + x + b + y + c)
    requires b != []
    ensures Contains(m, b)
    ensures exists i: nat, j: nat :: i < j && OccursAt(x, m, i) && OccursAt(y, m, j)
  {
    var k := |m| - |a + x + b + y + c|;
    assert a + x + b + y + c == a + x + (b + y + c);
    OccursInSuffix(m, a, x, b + y + c);
    assert a + x + b + y + c == (a + x) + b + (y + c);
    OccursInSuffix(m, a + x, b, y + c);
    OccursInSuffix(m, a + x + b, y, c);
    var i, j := k + |a|, k + |a| + |x| + |b|;
    assert OccursAt(x, m, i) && OccursAt(y, m, j) && i < j;
  }

  /** A message built as p + mid + l + tail ends with l + tail, and with tail. */
  lemma EndsWithParts(m: string, p: string, mid: string, l: string, tail: string)
    requires m == p + mid + l + tail
    ensures EndsWith(m, l + tail) && EndsWith(m, tail)
  {
    assert m == (p + mid) + (l + tail);
    EndsWithAppend(p + mid, l + tail);
    EndsWithAppend(p + mid + l, tail);
  }

  // The rendered text of each known kind, as the parts the lemmas below take apart.

  lemma PlusText(e: Event)
    requires e.kind == "createPlus"
    ensures CreateMessage(e) == ProfileLink(e) + " が " + IssueLink(e) + " に <b>+1</b> しました。\n"
  {
  }

  lemma BoardText(e: Event)
    requires e.kind == "createBoard"
    ensures CreateMessage(e) == ProfileLink(e) + " が " + IssueLink(e) + " の <b>ボードを作成</b> しました。\n"
  {
  }

  lemma WithinText(e: Event)
    requires e.kind == "transferIssue" && e.srcPipeline == e.destPipeline
    ensures CreateMessage(e) == ProfileLink(e) + (" が " + e.srcPipeline + " 内で ") + IssueLink(e)
                                + " の <b>優先順位を変更</b> しました。\n"
  {
  }

  lemma MoveText(e: Event)
    requires e.kind == "transferIssue" && e.srcPipeline != e.destPipeline
    ensures CreateMessage(e) == ProfileLink(e) + " が " + IssueLink(e)
                                + (" を <b>" + e.srcPipeline + "</b> から <b>" + e.destPipeline + "</b> に移動しました。\n")
  {
  }

  /** createPlus: the message ends with the issue link and the "+1" sentence (main.go line 87). */
  lemma PlusMessage(e: Event)
    requires e.kind == "createPlus"
    ensures EndsWith(CreateMessage(e), IssueLink(e) + " に <b>+1</b> しました。\n")
  {
    PlusText(e);
    EndsWithParts(CreateMessage(e), ProfileLink(e), " が ", IssueLink(e), " に <b>+1</b> しました。\n");
  }

  /** createBoard: the message ends with the issue link and the "board created" sentence (main.go line 95). */
  lemma BoardMessage(e: Event)
    requires e.kind == "createBoard"
    ensures EndsWith(CreateMessage(e), IssueLink(e) + " の <b>ボードを作成</b> しました。\n")
  {
    BoardText(e);
    EndsWithParts(CreateMessage(e), ProfileLink(e), " が ", IssueLink(e), " の <b>ボードを作成</b> しました。\n");
  }

  /**
   * transferIssue: equal pipeline names select the priority-change sentence,
   * which names the pipeline the issue stayed in; different names select the
   * move sentence, which names the source pipeline and, after it, the
   * destination (main.go lines 88-93).
   */
  lemma TransferMessage(e: Event)
    requires e.kind == "transferIssue"
    ensures var m := CreateMessage(e);
      e.srcPipeline == e.destPipeline ==>
        && Contains(m, " が " + e.srcPipeline + " 内で ")
        && EndsWith(m, IssueLink(e) + " の <b>優先順位を変更</b> しました。\n")
    ensures var m := CreateMessage(e);
      e.srcPipeline != e.destPipeline ==>
        && EndsWith(m, " を <b>" + e.srcPipeline + "</b> から <b>" + e.destPipeline + "</b> に移動しました。\n")
        && Contains(m, "</b> から <b>")
        && exists i: nat, j: nat :: i < j && OccursAt(e.srcPipeline, m, i) && OccursAt(e.destPipeline, m, j)
  {
    var m, p, l := CreateMessage(e), ProfileLink(e), IssueLink(e);
    if e.srcPipeline == e.destPipeline {
      var mid, tail := " が " + e.srcPipeline + " 内で ", " の <b>優先順位を変更</b> しました。\n";
      WithinText(e);
      EndsWithParts(m, p, mid, l, tail);
      assert m == p + mid + (l + tail);
      Infix(p, mid, l + tail);
    } else {
      var tail := " を <b>" + e.srcPipeline + "</b> から <b>" + e.destPipeline + "</b> に移動しました。\n";
      MoveText(e);
      EndsWithParts(m, p, " が ", l, tail);
      TwoNamesInOrder(m, " を <b>", e.srcPipeline, "</b> から <b>", e.destPipeline, "</b> に移動しました。\n");
    }
  }

  /**
   * Every known kind's message opens with the actor's profile link and links
   * the issue, so it names the actor, the organization, the repository and
   * the issue number (main.go lines 87, 90, 92, 95).
   */
  lemma KnownKindNamesActorAndIssue(e: Event)
    requires KnownKind(e.kind)
    ensures StartsWith(CreateMessage(e), ProfileLink(e))
    ensures Contains(CreateMessage(e), IssueLink(e))
    ensures Contains(CreateMessage(e), e.username)
    ensures Contains(CreateMessage(e), e.organization)
    ensures Contains(CreateMessage(e), e.repository)
    ensures Contains(CreateMessage(e), Decimal(e.issue))
  {
    var m := CreateMessage(e);
    var p := ProfileLink(e);
    var l := IssueLink(e);
    if e.kind == "createPlus" {
      PlusText(e);
      LinkedSentence(m, p, " が ", l, " に <b>+1</b> しました。\n");
    } else if e.kind == "createBoard" {
      BoardText(e);
      LinkedSentence(m, p, " が ", l, " の <b>ボードを作成</b> しました。\n");
    } else if e.srcPipeline == e.destPipeline {
      WithinText(e);
      LinkedSentence(m, p, " が " + e.srcPipeline + " 内で ", l, " の <b>優先順位を変更</b> しました。\n");
    } else {
      MoveText(e);
      LinkedSentence(m, p, " が ", l,
        " を <b>" + e.srcPipeline + "</b> から <b>" + e.destPipeline + "</b> に移動しました。\n");
    }
    LinksNameTheirFields(e);
    ContainsTransitive(m, p, e.username);
    ContainsTransitive(m, l, e.organization);
    ContainsTransitive(m, l, e.repository);
    ContainsTransitive(m, l, Decimal(e.issue));
  }

  /** Any other type name renders the fallback text naming it (main.go lines 96-97). */
  lemma UnknownKindMessage(e: Event)
    requires !KnownKind(e.kind)
    ensures CreateMessage(e) == "[Unknown] type = " + e.kind + "\n"
  {
  }

  /** Every message, the fallback included, is one line ended by a newline (main.go lines 87-97). */
  lemma MessageEndsWithNewline(e: Event)
    ensures EndsWith(CreateMessage(e), "\n")
  {
  }
}
