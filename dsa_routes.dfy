/**
 * The server's in-memory DSA catalog: a module-level list of topics, each holding an
 * ordered list of problems, with the three routes that read it or change it
 * (list all topics, get one topic by id, toggle one problem's completion flag).
 *
 * Route parameters arrive already parsed: `Some(n)` for an id `parseInt` reads as `n`,
 * `None` for one it reads as NaN, which equals no id.
 */
module DsaRoutes {
  import opened Wrappers
  import JsArrays

  datatype Problem = Problem(
    id: int,
    title: string,
    difficulty: string,
    isCompleted: bool,
    leetcodeLink: string,
    youtubeLink: string,
    articleLink: string)

  /** `completed` and `total` are stored numbers: nothing ties them to `problems`. */
  datatype Topic = Topic(
    id: int,
    name: string,
    level: string,
    completed: int,
    total: int,
    problems: seq<Problem>)

  /** An HTTP reply: the JSON body of a 200, or the message of a 404. */
  datatype Reply<T> = Ok(value: T) | NotFound(message: string)

  /** The body of a successful toggle: a message and the problem as it is afterwards. */
  datatype Updated = Updated(message: string, problem: Problem)

  const TopicNotFound: string := "Topic not found"
  const ProblemNotFound: string := "Problem not found"
  const StatusUpdated: string := "Problem status updated"

  // ---------------------------------------------------------------------------
  // Lookups (`Array.prototype.find` by id)
  // ---------------------------------------------------------------------------

  /** `i` is the position of the first topic whose id is `id`. */
  predicate IsFirstTopic(ts: seq<Topic>, id: int, i: int) {
    0 <= i < |ts| && ts[i].id == id && forall k :: 0 <= k < i ==> ts[k].id != id
  }

  /** No topic has the requested id (a NaN id has none). */
  predicate NoTopicWith(ts: seq<Topic>, id: Option<int>) {
    id.None? || forall k :: 0 <= k < |ts| ==> ts[k].id != id.value
  }

  /** `j` is the position of the first problem whose id is `id`. */
  predicate IsFirstProblem(ps: seq<Problem>, id: int, j: int) {
    0 <= j < |ps| && ps[j].id == id && forall k :: 0 <= k < j ==> ps[k].id != id
  }

  /** No problem in `ps` has the requested id. */
  predicate NoProblemWith(ps: seq<Problem>, id: Option<int>) {
    id.None? || forall k :: 0 <= k < |ps| ==> ps[k].id != id.value
  }

  /** `topics.find(t => t.id === id)`, as the position of the topic found. */
  function FindTopic(ts: seq<Topic>, id: Option<int>): (r: Option<nat>)
    ensures r.Some? ==> id.Some? && IsFirstTopic(ts, id.value, r.value)
    ensures r.None? <==> NoTopicWith(ts, id)
  {
    if id.None? || ts == [] then None
    else if ts[0].id == id.value then Some(0)
    else match FindTopic(ts[1..], id)
      case None => None
      case Some(k) => Some(k + 1)
  }

  /** `topic.problems.find(p => p.id === id)`, as the position of the problem found. */
  function FindProblem(ps: seq<Problem>, id: Option<int>): (r: Option<nat>)
    ensures r.Some? ==> id.Some? && IsFirstProblem(ps, id.value, r.value)
    ensures r.None? <==> NoProblemWith(ps, id)
  {
    if id.None? || ps == [] then None
    else if ps[0].id == id.value then Some(0)
    else match FindProblem(ps[1..], id)
      case None => None
      case Some(k) => Some(k + 1)
  }

  /** The first topic with a given id is unique, so `find` returns exactly it. */
  lemma FindTopicIsFirst(ts: seq<Topic>, id: int, i: int)
    requires IsFirstTopic(ts, id, i)
    ensures FindTopic(ts, Some(id)) == Some(i)
  {
    var r := FindTopic(ts, Some(id));
    assert r.Some?;
    assert r.value <= i && i <= r.value;
  }

  /** Likewise for the first problem with a given id. */
  lemma FindProblemIsFirst(ps: seq<Problem>, id: int, j: int)
    requires IsFirstProblem(ps, id, j)
    ensures FindProblem(ps, Some(id)) == Some(j)
  {
    var r := FindProblem(ps, Some(id));
    assert r.Some?;
    assert r.value <= j && j <= r.value;
  }

  // ---------------------------------------------------------------------------
  // Completion count (`problems.filter(p => p.isCompleted).length`)
  // ---------------------------------------------------------------------------

  predicate IsCompleted(p: Problem) {
    p.isCompleted
  }

  function CountCompleted(ps: seq<Problem>): (n: nat)
    ensures n <= |ps|
  {
    |JsArrays.Filter(ps, IsCompleted)|
  }

  /** The count is at most the number of problems, and it is zero exactly when none is completed. */
  lemma {:induction false} CountCompletedBounds(ps: seq<Problem>)
    ensures CountCompleted(ps) <= |ps|
    ensures CountCompleted(ps) == 0 <==> forall k :: 0 <= k < |ps| ==> !ps[k].isCompleted
    ensures CountCompleted(ps) == |ps| <==> forall k :: 0 <= k < |ps| ==> ps[k].isCompleted
  {
    if ps != [] {
      CountCompletedBounds(ps[1..]);
      assert forall k :: 1 <= k < |ps| ==> ps[k] == ps[1..][k - 1];
    }
  }

  /** Negating one problem's flag moves the count by exactly one. */
  lemma {:induction false} CountAfterFlip(ps: seq<Problem>, j: nat)
    requires j < |ps|
    ensures CountCompleted(ps[j := Flip(ps[j])])
         == if ps[j].isCompleted then CountCompleted(ps) - 1 else CountCompleted(ps) + 1
  {
    if j == 0 {
      assert ps[j := Flip(ps[j])][1..] == ps[1..];
    } else {
      CountAfterFlip(ps[1..], j - 1);
      assert ps[j := Flip(ps[j])][1..] == ps[1..][j - 1 := Flip(ps[j])];
    }
  }

  // ---------------------------------------------------------------------------
  // Toggle, as a function of the catalog
  // ---------------------------------------------------------------------------

  /** `problem.isCompleted = !problem.isCompleted`. */
  function Flip(p: Problem): (q: Problem)
    ensures q.isCompleted != p.isCompleted
    ensures q.(isCompleted := p.isCompleted) == p
  {
    p.(isCompleted := !p.isCompleted)
  }

  /** What the toggle route answers, and what the catalog is afterwards. */
  datatype ToggleOutcome = ToggleOutcome(reply: Reply<Updated>, topics: seq<Topic>)

  /**
   * The toggle route on catalog `ts`: find the topic, then the problem inside that
   * topic only, flip its flag and recount that topic's `completed`.
   */
  function ToggleProblem(ts: seq<Topic>, topicId: Option<int>, problemId: Option<int>): (o: ToggleOutcome)
    ensures o.reply == NotFound(TopicNotFound) <==> NoTopicWith(ts, topicId)
    ensures o.reply == NotFound(ProblemNotFound)
        <==> !NoTopicWith(ts, topicId) && NoProblemWith(ts[FindTopic(ts, topicId).value].problems, problemId)
    ensures o.reply.NotFound? ==> o.topics == ts
    ensures o.reply.Ok? ==> |o.topics| == |ts| && o.reply.value.message == StatusUpdated
  {
    match FindTopic(ts, topicId)
    case None => ToggleOutcome(NotFound(TopicNotFound), ts)
    case Some(i) =>
      match FindProblem(ts[i].problems, problemId)
      case None => ToggleOutcome(NotFound(ProblemNotFound), ts)
      case Some(j) =>
        var flipped := Flip(ts[i].problems[j]);
        var problems := ts[i].problems[j := flipped];
        var topic := ts[i].(problems := problems, completed := CountCompleted(problems));
        ToggleOutcome(Ok(Updated(StatusUpdated, flipped)), ts[i := topic])
  }

  /**
   * A toggle that finds topic `i` and problem `j` answers with that problem flipped,
   * negates its flag and recounts the topic's `completed` from its problems,
   * whatever the stored value was.
   */
  lemma ToggleFlipsFirstMatch(ts: seq<Topic>, topicId: int, problemId: int, i: nat, j: nat)
    requires IsFirstTopic(ts, topicId, i)
    requires IsFirstProblem(ts[i].problems, problemId, j)
    ensures var o := ToggleProblem(ts, Some(topicId), Some(problemId));
      && o.reply == Ok(Updated(StatusUpdated, Flip(ts[i].problems[j])))
      && |o.topics| == |ts|
      && o.topics[i].problems[j].isCompleted == !ts[i].problems[j].isCompleted
      && o.topics[i].completed == CountCompleted(o.topics[i].problems)
      && 0 <= o.topics[i].completed <= |o.topics[i].problems|
  {
    FindTopicIsFirst(ts, topicId, i);
    FindProblemIsFirst(ts[i].problems, problemId, j);
    CountCompletedBounds(ToggleProblem(ts, Some(topicId), Some(problemId)).topics[i].problems);
  }

  /**
   * A toggle changes nothing but the flag of the problem found and the `completed`
   * count of its topic: other topics, other problems, the topic's id, name, level,
   * total and problem order, and the problem's other fields all stay.
   */
  lemma ToggleChangesNothingElse(ts: seq<Topic>, topicId: int, problemId: int, i: nat, j: nat)
    requires IsFirstTopic(ts, topicId, i)
    requires IsFirstProblem(ts[i].problems, problemId, j)
    ensures var o := ToggleProblem(ts, Some(topicId), Some(problemId));
      && |o.topics| == |ts|
      && (forall k :: 0 <= k < |ts| && k != i ==> o.topics[k] == ts[k])
      && o.topics[i] == ts[i].(completed := o.topics[i].completed, problems := o.topics[i].problems)
      && |o.topics[i].problems| == |ts[i].problems|
      && (forall m :: 0 <= m < |ts[i].problems| && m != j ==> o.topics[i].problems[m] == ts[i].problems[m])
      && o.topics[i].problems[j] == ts[i].problems[j].(isCompleted := o.topics[i].problems[j].isCompleted)
  {
    FindTopicIsFirst(ts, topicId, i);
    FindProblemIsFirst(ts[i].problems, problemId, j);
  }

  /**
   * When the topic's stored count was already right, a toggle moves it by exactly one,
   * down for a problem that was completed and up for one that was not.
   */
  lemma ToggleMovesCountByOne(ts: seq<Topic>, topicId: int, problemId: int, i: nat, j: nat)
    requires IsFirstTopic(ts, topicId, i)
    requires IsFirstProblem(ts[i].problems, problemId, j)
    requires ts[i].completed == CountCompleted(ts[i].problems)
    ensures var o := ToggleProblem(ts, Some(topicId), Some(problemId));
      o.topics[i].completed == if ts[i].problems[j].isCompleted then ts[i].completed - 1 else ts[i].completed + 1
  {
    FindTopicIsFirst(ts, topicId, i);
    FindProblemIsFirst(ts[i].problems, problemId, j);
    CountAfterFlip(ts[i].problems, j);
  }

  /** The catalog a successful toggle of problem `j` in topic `i` leaves behind. */
  function ToggledAt(ts: seq<Topic>, i: nat, j: nat): seq<Topic>
    requires i < |ts| && j < |ts[i].problems|
  {
    var problems := ts[i].problems[j := Flip(ts[i].problems[j])];
    ts[i := ts[i].(problems := problems, completed := CountCompleted(problems))]
  }

  /** A toggle that finds topic `i` and problem `j` yields exactly `ToggledAt`. */
  lemma ToggleProblemAt(ts: seq<Topic>, topicId: int, problemId: int, i: nat, j: nat)
    requires IsFirstTopic(ts, topicId, i)
    requires IsFirstProblem(ts[i].problems, problemId, j)
    ensures ToggleProblem(ts, Some(topicId), Some(problemId))
         == ToggleOutcome(Ok(Updated(StatusUpdated, Flip(ts[i].problems[j]))), ToggledAt(ts, i, j))
  {
    FindTopicIsFirst(ts, topicId, i);
    FindProblemIsFirst(ts[i].problems, problemId, j);
  }

  /**
   * Toggling the same problem twice in a row succeeds both times, answers the
   * original problem the second time and restores every flag; only the topic's
   * `completed` stays recounted, so a topic whose count was right comes back unchanged.
   */
  lemma ToggleTwiceRestores(ts: seq<Topic>, topicId: int, problemId: int, i: nat, j: nat)
    requires IsFirstTopic(ts, topicId, i)
    requires IsFirstProblem(ts[i].problems, problemId, j)
    ensures
      var once := ToggleProblem(ts, Some(topicId), Some(problemId));
      var twice := ToggleProblem(once.topics, Some(topicId), Some(problemId));
      && once.reply == Ok(Updated(StatusUpdated, Flip(ts[i].problems[j])))
      && twice.reply == Ok(Updated(StatusUpdated, ts[i].problems[j]))
      && twice.topics == ts[i := ts[i].(completed := CountCompleted(ts[i].problems))]
      && (ts[i].completed == CountCompleted(ts[i].problems) ==> twice.topics == ts)
  {
    var ps := ts[i].problems;
    var ts1 := ToggledAt(ts, i, j);
    ToggleProblemAt(ts, topicId, problemId, i, j);
    assert IsFirstTopic(ts1, topicId, i);
    assert IsFirstProblem(ts1[i].problems, problemId, j);
    ToggleProblemAt(ts1, topicId, problemId, i, j);
    assert ts1[i].problems[j := Flip(ts1[i].problems[j])] == ps;
    assert ToggledAt(ts1, i, j) == ts[i := ts[i].(completed := CountCompleted(ps))];
  }

  // ---------------------------------------------------------------------------
  // The catalog held by the server process
  // ---------------------------------------------------------------------------

  /** The topics the server starts with. */
  function SeedTopics(): seq<Topic> {
    [ Topic(1, "Arrays", "Easy", 3, 5, [
        Problem(1, "Two Sum", "Easy", true,
          "https://leetcode.com/problems/two-sum", "https://youtube.com/watch?v=...", "https://medium.com/...")]),
      Topic(2, "Linked Lists", "Medium", 0, 3, [
        Problem(2, "Reverse Linked List", "Easy", false,
          "https://leetcode.com/problems/reverse-linked-list", "https://youtube.com/watch?v=...", "https://medium.com/...")]),
      Topic(3, "Binary Trees", "Hard", 0, 5, [
        Problem(3, "Binary Tree Level Order Traversal", "Medium", false,
          "https://leetcode.com/problems/binary-tree-level-order-traversal", "https://youtube.com/watch?v=...", "https://medium.com/..."),
        Problem(4, "Serialize and Deserialize Binary Tree", "Hard", false,
          "https://leetcode.com/problems/serialize-and-deserialize-binary-tree", "https://youtube.com/watch?v=...", "https://medium.com/...")]),
      Topic(4, "Binary Search Trees", "Hard", 0, 4, [
        Problem(5, "Validate Binary Search Tree", "Medium", false,
          "https://leetcode.com/problems/validate-binary-search-tree", "https://youtube.com/watch?v=...", "https://medium.com/...")]),
      Topic(5, "Dynamic Programming", "Hard", 0, 6, [
        Problem(6, "Longest Common Subsequence", "Medium", false,
          "https://leetcode.com/problems/longest-common-subsequence", "https://youtube.com/watch?v=...", "https://medium.com/...")]),
      Topic(6, "Graphs", "Hard", 0, 5, [
        Problem(7, "Course Schedule", "Medium", false,
          "https://leetcode.com/problems/course-schedule", "https://youtube.com/watch?v=...", "https://medium.com/...")])
    ]
  }

  /**
   * The seed data does not keep `completed` equal to the count of completed problems
   * (Arrays claims 3 with one problem), and `total` never matches the problem list;
   * the first toggle of Two Sum brings Arrays' count to 0.
   */
  lemma SeedCountsDisagree()
    ensures SeedTopics()[0].completed == 3 && CountCompleted(SeedTopics()[0].problems) == 1
    ensures forall k :: 0 <= k < |SeedTopics()| ==> SeedTopics()[k].total != |SeedTopics()[k].problems|
    ensures forall k :: 1 <= k < |SeedTopics()| ==> SeedTopics()[k].completed == CountCompleted(SeedTopics()[k].problems)
    ensures var o := ToggleProblem(SeedTopics(), Some(1), Some(1));
      o.reply.Ok? && !o.reply.value.problem.isCompleted && o.topics[0].completed == 0
  {
    var ps := SeedTopics()[0].problems;
    assert JsArrays.Filter(ps, IsCompleted) == ps;
    assert JsArrays.Filter(SeedTopics()[1].problems, IsCompleted) == [];
    assert JsArrays.Filter(SeedTopics()[2].problems, IsCompleted) == [];
    assert JsArrays.Filter(SeedTopics()[3].problems, IsCompleted) == [];
    assert JsArrays.Filter(SeedTopics()[4].problems, IsCompleted) == [];
    assert JsArrays.Filter(SeedTopics()[5].problems, IsCompleted) == [];
    FindTopicIsFirst(SeedTopics(), 1, 0);
    FindProblemIsFirst(ps, 1, 0);
    assert JsArrays.Filter(ps[0 := Flip(ps[0])], IsCompleted) == [];
  }

  /** The module-level `topics` array. */
  class Catalog {
    var topics: seq<Topic>

    constructor ()
      ensures topics == SeedTopics()
    {
      topics := SeedTopics();
    }

    /** GET /topics: the catalog as it is, in order. */
    function ListTopics(): (r: seq<Topic>)
      reads this
      ensures |r| == |topics| && forall k :: 0 <= k < |r| ==> r[k] == topics[k]
    {
      topics
    }

    /** GET /topics/:id: the first topic with that id, or a 404 "Topic not found". */
    function GetTopic(id: Option<int>): (r: Reply<Topic>)
      reads this
      ensures r.Ok? <==> !NoTopicWith(topics, id)
      ensures r.Ok? ==> exists i :: IsFirstTopic(topics, id.value, i) && r.value == topics[i]
      ensures r.NotFound? ==> r.message == TopicNotFound
    {
      match FindTopic(topics, id)
      case None => NotFound(TopicNotFound)
      case Some(i) => Ok(topics[i])
    }

    /**
     * PATCH /topics/:topicId/problems/:problemId/toggle: flips the problem's flag in
     * place, then recounts the topic's `completed`.
     */
    method Toggle(topicId: Option<int>, problemId: Option<int>) returns (r: Reply<Updated>)
      modifies this
      ensures r == ToggleProblem(old(topics), topicId, problemId).reply
      ensures topics == ToggleProblem(old(topics), topicId, problemId).topics
    {
      var ti := FindTopic(topics, topicId);
      if ti.None? {
        return NotFound(TopicNotFound);
      }
      var i := ti.value;
      var pj := FindProblem(topics[i].problems, problemId);
      if pj.None? {
        return NotFound(ProblemNotFound);
      }
      var j := pj.value;
      var problem := Flip(topics[i].problems[j]);
      topics := topics[i := topics[i].(problems := topics[i].problems[j := problem])];
      topics := topics[i := topics[i].(completed := CountCompleted(topics[i].problems))];
      r := Ok(Updated(StatusUpdated, problem));
    }
  }
}
