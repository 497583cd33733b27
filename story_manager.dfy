/**
 * The user story store: one localStorage entry holding the list of
 * user-written stories, each keyed by its `id`.
 */
module StoryManager {
  import opened Wrappers

  /** Prefix of every id the store assigns. */
  const IdPrefix: string := "user-story-"

  /**
   * A story record. `id` is "" when the object has no (truthy) id;
   * `createdAt`/`updatedAt` are `None` when the key is absent; the other
   * properties (title, text, ...) are in `fields`.
   */
  datatype Story = Story(id: string, createdAt: Option<int>, updatedAt: Option<int>, fields: map<string, string>)

  /** `{ ...existing, ...incoming, updatedAt: now }`. */
  function Merge(existing: Story, incoming: Story, now: int): (r: Story)
    ensures r.id == incoming.id && r.updatedAt == Some(now)
    ensures r.createdAt == (if incoming.createdAt.Some? then incoming.createdAt else existing.createdAt)
    ensures r.fields.Keys == existing.fields.Keys + incoming.fields.Keys
    ensures forall k :: k in incoming.fields ==> r.fields[k] == incoming.fields[k]
    ensures forall k :: k in existing.fields && k !in incoming.fields ==> r.fields[k] == existing.fields[k]
  {
    Story(incoming.id,
          if incoming.createdAt.Some? then incoming.createdAt else existing.createdAt,
          Some(now),
          existing.fields + incoming.fields)
  }

  /** No id appears twice in the list. */
  predicate UniqueIds(stories: seq<Story>) {
    forall i, j :: 0 <= i < j < |stories| ==> stories[i].id != stories[j].id
  }

  /** `stories.findIndex(s => s.id === id)`. */
  function FindIndex(stories: seq<Story>, id: string): (r: int)
    ensures -1 <= r < |stories|
    ensures r >= 0 ==> stories[r].id == id
    ensures forall j :: 0 <= j < |stories| && (r == -1 || j < r) ==> stories[j].id != id
  {
    if stories == [] then -1
    else if stories[0].id == id then 0
    else
      var r := FindIndex(stories[1..], id);
      if r == -1 then -1 else r + 1
  }

  /** `stories.find(s => s.id === id)`: the first story with that id, or undefined. */
  function FindStory(stories: seq<Story>, id: string): (r: Option<Story>)
    ensures r.Some? <==> FindIndex(stories, id) >= 0
    ensures r.Some? ==> r.value == stories[FindIndex(stories, id)]
  {
    var i := FindIndex(stories, id);
    if i == -1 then None else Some(stories[i])
  }

  /** The list update `saveUserStory` makes: merge into the first story with the id, or append. */
  function Upsert(stories: seq<Story>, story: Story, now: int): (r: seq<Story>)
    ensures FindIndex(stories, story.id) == -1 ==> r == stories + [story]
    ensures FindIndex(stories, story.id) >= 0 ==>
      var i := FindIndex(stories, story.id);
      |r| == |stories| && r[i] == Merge(stories[i], story, now)
      && forall j :: 0 <= j < |stories| && j != i ==> r[j] == stories[j]
  {
    var i := FindIndex(stories, story.id);
    if i == -1 then stories + [story] else stories[i := Merge(stories[i], story, now)]
  }

  /** `stories.filter(s => s.id !== id)`. */
  function RemoveStory(stories: seq<Story>, id: string): (r: seq<Story>)
    ensures |r| <= |stories|
    ensures forall s :: s in r <==> s in stories && s.id != id
  {
    if stories == [] then []
    else (if stories[0].id != id then [stories[0]] else []) + RemoveStory(stories[1..], id)
  }

  /** Saving keeps ids unique. */
  lemma UpsertKeepsUnique(stories: seq<Story>, story: Story, now: int)
    requires UniqueIds(stories)
    ensures UniqueIds(Upsert(stories, story, now))
  {
    var r := Upsert(stories, story, now);
    var i := FindIndex(stories, story.id);
    if i >= 0 {
      assert forall j :: 0 <= j < |r| ==> r[j].id == stories[j].id;
    } else {
      assert forall j :: 0 <= j < |stories| ==> r[j] == stories[j];
    }
  }

  /** Right after a save, looking the id up gives the saved (or merged) record. */
  lemma FindAfterUpsert(stories: seq<Story>, story: Story, now: int)
    ensures var i := FindIndex(stories, story.id);
      FindStory(Upsert(stories, story, now), story.id)
        == Some(if i >= 0 then Merge(stories[i], story, now) else story)
  {
    var r := Upsert(stories, story, now);
    var i := FindIndex(stories, story.id);
    if i >= 0 {
      assert r[i].id == story.id;
      assert FindIndex(r, story.id) == i by {
        assert forall j :: 0 <= j < i ==> r[j] == stories[j];
      }
    } else {
      assert r[|stories|].id == story.id;
      assert forall j :: 0 <= j < |stories| ==> r[j] == stories[j];
    }
  }

  /** Saving a story leaves the lookup of every other id as it was. */
  lemma FindOtherAfterUpsert(stories: seq<Story>, story: Story, now: int, id: string)
    requires id != story.id
    ensures FindStory(Upsert(stories, story, now), id) == FindStory(stories, id)
  {
    var r := Upsert(stories, story, now);
    var i := FindIndex(stories, story.id);
    var k := FindIndex(stories, id);
    if i >= 0 {
      assert forall j :: 0 <= j < |r| ==> r[j].id == stories[j].id;
      assert FindIndex(r, id) == k by {
        FindIndexSameIds(r, stories, id);
      }
      assert k >= 0 ==> k != i && r[k] == stories[k];
    } else {
      FindIndexAppendOther(stories, story, id);
    }
  }

  /** Lists with the same ids at the same positions agree on `findIndex`. */
  lemma {:induction false} FindIndexSameIds(a: seq<Story>, b: seq<Story>, id: string)
    requires |a| == |b| && forall j :: 0 <= j < |a| ==> a[j].id == b[j].id
    ensures FindIndex(a, id) == FindIndex(b, id)
  {
    if a != [] {
      FindIndexSameIds(a[1..], b[1..], id);
    }
  }

  /** Appending a story with another id does not change where an id is first found. */
  lemma {:induction false} FindIndexAppendOther(a: seq<Story>, x: Story, id: string)
    requires x.id != id
    ensures FindIndex(a + [x], id) == FindIndex(a, id)
  {
    if a != [] {
      assert (a + [x])[1..] == a[1..] + [x];
      FindIndexAppendOther(a[1..], x, id);
    }
  }

  /** After deleting, no story has the id. */
  lemma DeleteRemovesId(stories: seq<Story>, id: string)
    ensures FindStory(RemoveStory(stories, id), id) == None
  {
    var r := RemoveStory(stories, id);
    assert forall j :: 0 <= j < |r| ==> r[j] in r;
  }

  /** Deleting an id no story has leaves the list unchanged. */
  lemma {:induction false} DeleteAbsentId(stories: seq<Story>, id: string)
    requires FindIndex(stories, id) == -1
    ensures RemoveStory(stories, id) == stories
  {
    if stories != [] {
      DeleteAbsentId(stories[1..], id);
      assert [stories[0]] + stories[1..] == stories;
    }
  }

  /** The kept stories keep their relative order: the filter distributes over concatenation. */
  lemma {:induction false} RemoveStoryAppend(a: seq<Story>, b: seq<Story>, id: string)
    ensures RemoveStory(a + b, id) == RemoveStory(a, id) + RemoveStory(b, id)
  {
    if a != [] {
      assert (a + b)[1..] == a[1..] + b;
      RemoveStoryAppend(a[1..], b, id);
    } else {
      assert a + b == b;
    }
  }

  /** `find` looks at the head first, then at the rest. */
  lemma FindStoryCons(stories: seq<Story>, id: string)
    requires stories != []
    ensures FindStory(stories, id) == if stories[0].id == id then Some(stories[0]) else FindStory(stories[1..], id)
  {
  }

  /** Deleting one id leaves the lookup of every other id as it was. */
  lemma {:induction false} FindOtherAfterDelete(stories: seq<Story>, id: string, other: string)
    requires other != id
    ensures FindStory(RemoveStory(stories, id), other) == FindStory(stories, other)
  {
    if stories != [] {
      FindOtherAfterDelete(stories[1..], id, other);
      FindStoryCons(stories, other);
      var r := RemoveStory(stories, id);
      if stories[0].id != id {
        assert r == [stories[0]] + RemoveStory(stories[1..], id);
        FindStoryCons(r, other);
        assert r[1..] == RemoveStory(stories[1..], id);
      } else {
        assert r == RemoveStory(stories[1..], id);
      }
    }
  }

  /** The store: `None` when nothing is saved under the key, otherwise the parsed list. */
  class StoryStore {
    var stored: Option<seq<Story>>

    constructor (stored: Option<seq<Story>>)
      ensures this.stored == stored
    {
      this.stored := stored;
    }

    /** `getUserStories()`: the saved list, or the empty list when nothing is saved. */
    function GetUserStories(): (r: seq<Story>)
      reads this
      ensures stored.None? ==> r == []
      ensures stored.Some? ==> r == stored.value
    {
      stored.GetOr([])
    }

    /** `getUserStoryById(id)`. */
    function GetUserStoryById(id: string): (r: Option<Story>)
      reads this
      ensures r.Some? ==> r.value in GetUserStories() && r.value.id == id
      ensures r.Some? ==> r.value == GetUserStories()[FindIndex(GetUserStories(), id)]
      ensures r.None? ==> forall s :: s in GetUserStories() ==> s.id != id
    {
      FindStory(GetUserStories(), id)
    }

    /**
     * `saveUserStory(story)`: a story without an id gets `user-story-<uuid>`
     * and `createdAt`; then it is merged into the entry with its id or
     * appended, and the new list is saved and returned. `saved` is the
     * caller's object as the source leaves it.
     */
    method SaveUserStory(story: Story, uuid: string, createdNow: int, updatedNow: int)
      returns (stories: seq<Story>, saved: Story)
      modifies this
      ensures story.id == "" ==> saved == story.(id := IdPrefix + uuid, createdAt := Some(createdNow))
      ensures story.id != "" ==> saved == story
      ensures saved.id != ""
      ensures stories == Upsert(old(GetUserStories()), saved, updatedNow)
      ensures stored == Some(stories)
      ensures UniqueIds(old(GetUserStories())) ==> UniqueIds(stories)
      ensures var i := FindIndex(old(GetUserStories()), saved.id);
        GetUserStoryById(saved.id) == Some(if i >= 0 then Merge(old(GetUserStories())[i], saved, updatedNow) else saved)
    {
      saved := story;
      if story.id == "" {
        saved := saved.(id := IdPrefix + uuid, createdAt := Some(createdNow));
      }
      var current := GetUserStories();
      var existingIndex := FindIndex(current, saved.id);
      if existingIndex > -1 {
        current := current[existingIndex := Merge(current[existingIndex], saved, updatedNow)];
      } else {
        current := current + [saved];
      }
      if UniqueIds(old(GetUserStories())) {
        UpsertKeepsUnique(old(GetUserStories()), saved, updatedNow);
      }
      FindAfterUpsert(old(GetUserStories()), saved, updatedNow);
      stored := Some(current);
      stories := current;
    }

    /** `deleteUserStory(id)`: drop every story with the id, save and return the rest. */
    method DeleteUserStory(id: string) returns (stories: seq<Story>)
      modifies this
      ensures stories == RemoveStory(old(GetUserStories()), id)
      ensures stored == Some(stories)
      ensures GetUserStoryById(id) == None
      ensures FindIndex(old(GetUserStories()), id) == -1 ==> stories == old(GetUserStories())
    {
      stories := RemoveStory(GetUserStories(), id);
      DeleteRemovesId(GetUserStories(), id);
      if FindIndex(GetUserStories(), id) == -1 {
        DeleteAbsentId(GetUserStories(), id);
      }
      stored := Some(stories);
    }
  }
}
