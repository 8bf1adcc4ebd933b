/**
 * The two message shapes and their lazily materialised ids
 * (messageq/types.go).
 *
 * The UUID generator is replaced by a `freshId` argument: the id a
 * generator call would return at that point.  Go's `[]byte(s)` conversion
 * is the identity here: ids are returned as the strings whose bytes they are.
 */
module Types {

  /** A value of `map[string]interface{}`: a string, or something else. */
  datatype Value = Str(s: string) | NonString(repr: string)

  /** ArbitraryMessage: a free-form map, shared by reference like a Go map. */
  class ArbitraryMessage {
    var fields: map<string, Value>

    constructor (fields: map<string, Value>)
      ensures this.fields == fields
    {
      this.fields := fields;
    }

    /** The message's id is materialised in the map and is a string. */
    ghost predicate HasId()
      reads this
    {
      "id" in fields && fields["id"].Str?
    }

    /**
     * Id: the string under "id" when there is one (the map is left alone);
     * otherwise `freshId`, stored under "id" with every other key left as it
     * was.  A non-string "id" makes Go's type assertion panic, so callers
     * must not have one.
     */
    method Id(freshId: string) returns (id: string)
      requires "id" in fields ==> fields["id"].Str?
      modifies this
      ensures old(HasId()) ==> id == old(fields["id"].s) && fields == old(fields)
      ensures !old(HasId()) ==> id == freshId && fields == old(fields)["id" := Str(freshId)]
      ensures HasId() && fields["id"] == Str(id)
      ensures forall k :: k != "id" ==> (k in fields <==> k in old(fields))
      ensures forall k :: k != "id" && k in fields ==> fields[k] == old(fields[k])
    {
      if "id" in fields {
        return fields["id"].s;
      }
      id := freshId;
      fields := fields["id" := Str(id)];
    }
  }

  /**
   * Id is idempotent: a second call returns the same id and changes
   * nothing, whatever the generator would have produced for it.
   */
  method ArbitraryIdTwice(msg: ArbitraryMessage, fresh1: string, fresh2: string)
      returns (id1: string, id2: string)
    requires "id" in msg.fields ==> msg.fields["id"].Str?
    modifies msg
    ensures id1 == id2 && msg.HasId() && msg.fields["id"] == Str(id1)
  {
    id1 := msg.Id(fresh1);
    ghost var after := msg.fields;
    id2 := msg.Id(fresh2);
    assert msg.fields == after;
  }

  /** StructuredMessage: a record embedding the id field MqId, empty until set. */
  class StructuredMessage {
    var MqId: string

    constructor (mqId: string)
      ensures MqId == mqId
    {
      MqId := mqId;
    }
  }

  /**
   * (*StructuredMessage).Id: keeps a non-empty MqId, or replaces an empty
   * one with `freshId`, and returns MqId.  A nil receiver gets `freshId`
   * back, stored nowhere.  UUIDs are never empty.
   */
  method StructuredId(t: StructuredMessage?, freshId: string) returns (id: string)
    requires freshId != ""
    modifies t
    ensures id != ""
    ensures t == null ==> id == freshId
    ensures t != null && old(t.MqId) != "" ==> id == old(t.MqId) && t.MqId == old(t.MqId)
    ensures t != null && old(t.MqId) == "" ==> id == freshId && t.MqId == freshId
    ensures t != null ==> t.MqId == id
  {
    var u := t;
    if u == null {
      u := new StructuredMessage("");
    }
    if u.MqId == "" {
      u.MqId := freshId;
    }
    id := u.MqId;
  }

  /** Once MqId is set, Id returns it and leaves it as it is, whatever the generator offers. */
  method StructuredIdStable(t: StructuredMessage, fresh1: string, fresh2: string)
      returns (id1: string, id2: string)
    requires fresh1 != "" && fresh2 != ""
    modifies t
    ensures id1 == id2 == t.MqId
    ensures old(t.MqId) != "" ==> id1 == old(t.MqId)
  {
    id1 := StructuredId(t, fresh1);
    id2 := StructuredId(t, fresh2);
  }

  /**
   * On a nil receiver nothing is remembered: two calls answer whatever the
   * generator produced each time, so two different UUIDs give two different ids.
   */
  method NilStructuredIdUnstable(fresh1: string, fresh2: string) returns (id1: string, id2: string)
    requires fresh1 != "" && fresh2 != "" && fresh1 != fresh2
    ensures id1 != id2
  {
    id1 := StructuredId(null, fresh1);
    id2 := StructuredId(null, fresh2);
  }
}
