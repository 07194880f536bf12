/**
 * The intent table: three configured lists (phrases, MQTT topics, MQTT
 * payloads) become a phrase-to-topic and a phrase-to-payload table, and the
 * `parse` service maps a spoken phrase to the MQTT messages it publishes.
 *
 * The MQTT client is seen only through `outbox`, the messages published in
 * order; connecting and disconnecting are not modelled.
 */
module IntentTable {
  import opened Wrappers

  const DefaultNotFoundTopic: string := "hass/unknown_command"
  /** The success topic used when `success_topic` is not configured. */
  const DefaultSuccessTopic: string := "hass/successful_command"
  /** The phrase used when a `parse` call carries no `text`. */
  const DefaultUnknownCommand: string := "unknown_command"
  /** The payload published on the success topic (spelt as in the component). */
  const DefaultSuccessCommand: string := "succcess"

  /** The two configuration assertions of `setup`, in the order they are checked. */
  datatype SetupError = TopicCountMismatch | PayloadCountMismatch

  datatype Tables = Tables(topics: map<string, string>, payloads: map<string, string>)

  datatype Publish = Publish(topic: string, payload: string)

  function Min(a: nat, b: nat): nat { if a <= b then a else b }

  /**
   * `dict(zip(keys, values))`: pairs up to the shorter list, and a key that
   * occurs more than once keeps the value of its last occurrence.
   */
  function ZipDict<K, V>(keys: seq<K>, values: seq<V>): (m: map<K, V>)
    ensures m.Keys == set i | 0 <= i < Min(|keys|, |values|) :: keys[i]
    decreases |keys| + |values|
  {
    if |keys| == 0 || |values| == 0 then map[]
    else if |keys| > |values| then ZipDict(keys[..|values|], values)
    else if |values| > |keys| then ZipDict(keys, values[..|keys|])
    else
      var n := |keys| - 1;
      var m := ZipDict(keys[..n], values[..n]);
      assert forall i :: 0 <= i < n ==> keys[..n][i] == keys[i];
      m[keys[n] := values[n]]
  }

  /** No later position of `keys` holds the key at position `i`. */
  predicate LastOccurrence<K(==)>(keys: seq<K>, i: nat)
    requires i < |keys|
  {
    forall j :: i < j < |keys| ==> keys[j] != keys[i]
  }

  /** The value `dict(zip(...))` keeps for a key is the one paired with its last occurrence. */
  lemma {:induction false} ZipDictLastWins<K, V>(keys: seq<K>, values: seq<V>, i: nat)
    requires i < |keys| && i < |values|
    requires LastOccurrence(keys[..Min(|keys|, |values|)], i)
    ensures keys[i] in ZipDict(keys, values) && ZipDict(keys, values)[keys[i]] == values[i]
  {
    var n := Min(|keys|, |values|);
    ZipDictTrim(keys, values);
    ZipDictLastWinsPaired(keys[..n], values[..n], i);
    assert keys[..n][i] == keys[i] && values[..n][i] == values[i];
  }

  /** Zipping ignores the surplus of the longer list. */
  lemma ZipDictTrim<K, V>(keys: seq<K>, values: seq<V>)
    ensures var n := Min(|keys|, |values|); ZipDict(keys, values) == ZipDict(keys[..n], values[..n])
  {
    assert keys[..|keys|] == keys && values[..|values|] == values;
  }

  /** `ZipDictLastWins` for lists of equal length, by induction on the length. */
  lemma {:induction false} ZipDictLastWinsPaired<K, V>(keys: seq<K>, values: seq<V>, i: nat)
    requires |keys| == |values| && i < |keys|
    requires LastOccurrence(keys, i)
    ensures keys[i] in ZipDict(keys, values) && ZipDict(keys, values)[keys[i]] == values[i]
    decreases |keys|
  {
    var k := |keys| - 1;
    if i < k {
      assert keys[k] != keys[i];
      assert LastOccurrence(keys[..k], i) by {
        forall j | i < j < k
          ensures keys[..k][j] != keys[..k][i]
        {
          assert keys[j] != keys[i];
        }
      }
      ZipDictLastWinsPaired(keys[..k], values[..k], i);
      assert keys[..k][i] == keys[i] && values[..k][i] == values[i];
    }
  }

  /**
   * `setup`: one topic per phrase is checked first, one payload per topic
   * second; then both tables are zipped from the phrase list.
   */
  function Setup(phrases: seq<string>, topics: seq<string>, payloads: seq<string>): (r: Result<Tables, SetupError>)
    ensures r.Success? <==> |topics| == |phrases| && |topics| == |payloads|
    ensures r.Failure? ==> r.error == if |topics| != |phrases| then TopicCountMismatch else PayloadCountMismatch
    ensures r.Success? ==>
      && r.value.topics.Keys == r.value.payloads.Keys
      && r.value.topics.Keys == set i | 0 <= i < |phrases| :: phrases[i]
  {
    if |topics| != |phrases| then Failure(TopicCountMismatch)
    else if |topics| != |payloads| then Failure(PayloadCountMismatch)
    else Success(Tables(ZipDict(phrases, topics), ZipDict(phrases, payloads)))
  }

  /** The phrase a `parse` call routes: its `text`, or `unknown_command` when it has none. */
  function SpokenPhrase(text: Option<string>): string
  {
    if text.Some? then text.value else DefaultUnknownCommand
  }

  /**
   * What `parse` publishes for a phrase: for a phrase in both tables its topic
   * and payload, then the success message; for any other phrase the phrase
   * itself on the not-found topic.
   */
  function Route(t: Tables, successTopic: string, notFoundTopic: string, phrase: string): seq<Publish>
  {
    if phrase in t.topics && phrase in t.payloads then
      [Publish(t.topics[phrase], t.payloads[phrase])] + [Publish(successTopic, DefaultSuccessCommand)]
    else
      [Publish(notFoundTopic, phrase)]
  }

  /**
   * From the configured lists to the messages: a phrase at its last position
   * `i` in the phrase list publishes `topics[i]` with `payloads[i]` and then the
   * success message; a phrase not in the list publishes itself on the
   * not-found topic. Matching is exact string equality.
   */
  lemma {:induction false} RouteByConfiguredLists(phrases: seq<string>, topics: seq<string>, payloads: seq<string>,
                                                  successTopic: string, notFoundTopic: string, phrase: string)
    requires Setup(phrases, topics, payloads).Success?
    ensures var t := Setup(phrases, topics, payloads).value;
      && (forall i :: 0 <= i < |phrases| && phrases[i] == phrase && LastOccurrence(phrases, i) ==>
            Route(t, successTopic, notFoundTopic, phrase)
            == [Publish(topics[i], payloads[i]), Publish(successTopic, DefaultSuccessCommand)])
      && (phrase !in phrases ==> Route(t, successTopic, notFoundTopic, phrase) == [Publish(notFoundTopic, phrase)])
  {
    var t := Setup(phrases, topics, payloads).value;
    assert phrases[..Min(|phrases|, |topics|)] == phrases;
    forall i | 0 <= i < |phrases| && phrases[i] == phrase && LastOccurrence(phrases, i)
      ensures Route(t, successTopic, notFoundTopic, phrase)
              == [Publish(topics[i], payloads[i]), Publish(successTopic, DefaultSuccessCommand)]
    {
      ZipDictLastWins(phrases, topics, i);
      ZipDictLastWins(phrases, payloads, i);
    }
  }

  /**
   * The service registered by `setup` once both configuration assertions
   * passed: the configured lists, the tables zipped from them, the two topics,
   * and the messages published so far.
   */
  class IntentRouter {
    ghost const phrases: seq<string>
    ghost const topics: seq<string>
    ghost const payloads: seq<string>
    const tables: Tables
    const successTopic: string
    /** Always the default: the configuration schema has no key for it. */
    const notFoundTopic: string
    var outbox: seq<Publish>

    /** The tables are the ones `setup` builds from the configured lists. */
    ghost predicate Valid()
    {
      Setup(phrases, topics, payloads) == Success(tables)
    }

    constructor (phrases: seq<string>, topics: seq<string>, payloads: seq<string>, configuredSuccessTopic: Option<string>)
      requires Setup(phrases, topics, payloads).Success?
      ensures Valid()
      ensures this.phrases == phrases && this.topics == topics && this.payloads == payloads
      ensures successTopic == (if configuredSuccessTopic.Some? then configuredSuccessTopic.value else DefaultSuccessTopic)
      ensures notFoundTopic == DefaultNotFoundTopic && outbox == []
    {
      this.phrases := phrases;
      this.topics := topics;
      this.payloads := payloads;
      tables := Setup(phrases, topics, payloads).value;
      successTopic := if configuredSuccessTopic.Some? then configuredSuccessTopic.value else DefaultSuccessTopic;
      notFoundTopic := DefaultNotFoundTopic;
      outbox := [];
    }

    /**
     * The `parse` service: publish the messages for the spoken phrase, one
     * after the other. A phrase at its last position `i` in the configured list
     * publishes `topics[i]` with `payloads[i]` and then the success message; a
     * phrase not in the list publishes itself on the not-found topic. A call
     * without text routes `unknown_command`.
     */
    method Parse(text: Option<string>)
      requires Valid()
      modifies this`outbox
      ensures outbox == old(outbox) + Route(tables, successTopic, notFoundTopic, SpokenPhrase(text))
      ensures forall i :: 0 <= i < |phrases| && phrases[i] == SpokenPhrase(text) && LastOccurrence(phrases, i) ==>
        outbox == old(outbox) + [Publish(topics[i], payloads[i]), Publish(successTopic, DefaultSuccessCommand)]
      ensures SpokenPhrase(text) !in phrases ==>
        outbox == old(outbox) + [Publish(notFoundTopic, SpokenPhrase(text))]
    {
      var spoken := SpokenPhrase(text);
      RouteByConfiguredLists(phrases, topics, payloads, successTopic, notFoundTopic, spoken);
      if spoken in tables.topics.Keys && spoken in tables.payloads {
        var topic := tables.topics[spoken];
        var payload := tables.payloads[spoken];
        outbox := outbox + [Publish(topic, payload)];
        outbox := outbox + [Publish(successTopic, DefaultSuccessCommand)];
      } else {
        outbox := outbox + [Publish(notFoundTopic, spoken)];
      }
    }
  }
}
