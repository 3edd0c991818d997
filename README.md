# WS-Nu core, modelled in Dafny

WS-Nu is a Java implementation of OASIS WS-Notification 1.3. That family covers:

- WS-BaseNotification: notification producers, Subscribe and GetCurrentMessage;
- WS-BrokeredNotification: brokers and publisher registration;
- WS-Topics: topic expressions and their dialects.

This project models the following parts of WS-Nu.

- **Topic-expression dispatch.** The `TopicValidator` registry maps each dialect URI to its evaluator. Its five operations either delegate to the registered evaluator or raise `TopicExpressionDialectUnknownFault`.
- **The XPath dialect evaluator.** Its `getIntersection` finds the single text item of the expression, compiles it, evaluates it against every member of a topic set, and collects the selected nodes.
- **The `FilterEvaluator` interface.** The model states the contract its implementations must keep and gives a reference implementation that keeps it.
- **`NotificationProducerImpl` and `GenericNotificationBroker`.** These hold the subscription table and the per-topic cache of latest messages. The model covers:
  - Subscribe, with its checks in source order;
  - the expiry sweep;
  - the per-recipient filtering;
  - the caching loop of `sendNotification`;
  - GetCurrentMessage;
  - pause, resume and unsubscribe events;
  - the broker's RegisterPublisher.
- **`SimpleNotificationBroker`.** It keeps subscription and publisher tables and fans out to listeners.
- **`SimplePublisherRegistrationManager`.** It keeps the table of registered publishers, with DestroyRegistration and the periodic sweep.
- **The message path.**
  - `UnpackingConnector` dispatches the elements of a SOAP body to the analysed `@WebMethod`s of a web service.
  - `WebService` manages endpoint references and content managers, and serves WSDL and file requests.
  - `ApplicationServer` keeps the server singleton. Its handler maps message status flags to HTTP status codes, and `sendMessage` decides which outgoing requests it makes.

How the model is built:

- Java interfaces become datatypes whose fields are functions.
- Code outside this model is passed in as function parameters, named after the call they stand for. This covers the Simple, Concrete and Full evaluators, `FilterSupport`, `TopicUtils`, `ServiceUtilities`, the XPath engine, the file system, content managers and the HTTP client.
- The clock and freshly generated keys are parameters too.
- Loops are kept as `method`s with invariants. Each one is proved equal to a specification function, and the lemmas are proved about that function.

## Model

The source paths below use these directories:

- `Base/src/main/java/org/ntnunotif/wsnu/base/` and `Base/src/org/ntnunotif/wsnu/base/` for the base classes;
- `Services/src/main/java/org/ntnunotif/wsnu/services/` and `Services/src/org/ntnunotif/wsnu/services/` for the services.

| member | source | states |
|---|---|---|
| XPathDialect.GetDialectURIAsString | Base/src/org/ntnunotif/wsnu/base/topics/XPathEvaluator.java:33-38 | the XPath dialect is identified by `http://www.w3.org/TR/1999/REC-xpath-19991116` |
| XPathDialect.FindExpressionString | Base/src/org/ntnunotif/wsnu/base/topics/XPathEvaluator.java:89-113 | the loop over the content finds the one text item, refusing a second text item and a content without any text |
| XPathDialect.SecondTextItemRefused | Base/src/org/ntnunotif/wsnu/base/topics/XPathEvaluator.java:91-101 | an expression content with two text items is an invalid topic expression |
| XPathDialect.ElementItemsIgnored | Base/src/org/ntnunotif/wsnu/base/topics/XPathEvaluator.java:91-92 | non-text content does not influence which expression string is found |
| XPathDialect.GetIntersection | Base/src/org/ntnunotif/wsnu/base/topics/XPathEvaluator.java:76-160 | the method, with its nested loop and early exits, computes the reference intersection: dialect check, expression string, compile, selection over the topic set, `null` for no node |
| XPathDialect.SelectedFailureStays | Base/src/org/ntnunotif/wsnu/base/topics/XPathEvaluator.java:138-155 | once the evaluation of one member fails, the whole selection fails |
| XPathDialect.SelectedConcat | Base/src/org/ntnunotif/wsnu/base/topics/XPathEvaluator.java:138-156 | the selection over a concatenated topic set lists the nodes of each part in topic-set order |
| XPathDialect.SelectedSingle | Base/src/org/ntnunotif/wsnu/base/topics/XPathEvaluator.java:139-146 | the selection over one member is exactly what the engine returns for it |
| XPathDialect.SelectedEmptyIff | Base/src/org/ntnunotif/wsnu/base/topics/XPathEvaluator.java:142-158 | nothing is selected exactly when every member evaluates to an empty node list |
| XPathDialect.IntersectionNullIff | Base/src/org/ntnunotif/wsnu/base/topics/XPathEvaluator.java:136-159 | `getIntersection` answers `null` exactly when the expression compiles and no member selects any node |
| XPathDialect.IntersectionOfEmptyTopicSet | Base/src/org/ntnunotif/wsnu/base/topics/XPathEvaluator.java:157-158 | an empty topic set always gives `null` for a compilable expression |
| XPathDialect.EvaluateTopicWithExpression | Base/src/org/ntnunotif/wsnu/base/topics/XPathEvaluator.java:41-43 | always throws `UnsupportedOperationException` with the not-implemented message |
| XPathDialect.IsExpressionPermittedInNamespace | Base/src/org/ntnunotif/wsnu/base/topics/XPathEvaluator.java:163-166 | always throws `UnsupportedOperationException` |
| XPathDialect.EvaluateTopicExpressionToQName | Base/src/org/ntnunotif/wsnu/base/topics/XPathEvaluator.java:169-173 | always throws `UnsupportedOperationException` |
| XPathDialect.XPathTopicEvaluator | Base/src/org/ntnunotif/wsnu/base/topics/XPathEvaluator.java:28-38 | the evaluator object reports the XPath dialect URI |
| XPathDialect.XPathEvaluatorIsDialectHonest | Base/src/org/ntnunotif/wsnu/base/topics/XPathEvaluator.java:76-87 | the XPath evaluator raises an unknown-dialect fault only for expressions of another dialect |
| TopicValidation.Put | Base/src/main/java/org/ntnunotif/wsnu/base/topics/TopicValidator.java:206-211 | a `put` under the evaluator's own URI adds or replaces that key only and keeps every key equal to its evaluator's dialect |
| TopicValidation.PutKeepsHonest | Base/src/main/java/org/ntnunotif/wsnu/base/topics/TopicValidator.java:206-211 | adding an honest evaluator keeps the registry honest |
| TopicValidation.InitialRegistry | Base/src/main/java/org/ntnunotif/wsnu/base/topics/TopicValidator.java:55-65 | the static initialiser registers the XPath, Simple, Concrete and Full evaluators under their URIs |
| TopicValidation.InitialRegistryHoldsDefaultDialects | Base/src/main/java/org/ntnunotif/wsnu/base/topics/TopicValidator.java:55-65 | with the documented URIs the initial registry is exactly the four-entry map |
| TopicValidation.UnknownDialectFault | Base/src/main/java/org/ntnunotif/wsnu/base/topics/TopicValidator.java:96-100 | the raised fault is a `TopicExpressionDialectUnknownFault` whose description names the dialect |
| TopicValidation.IsExpressionPermittedInNamespace | Base/src/main/java/org/ntnunotif/wsnu/base/topics/TopicValidator.java:89-103 | an unregistered dialect raises the unknown-dialect fault, a registered one delegates to its evaluator |
| TopicValidation.GetIntersection | Base/src/main/java/org/ntnunotif/wsnu/base/topics/TopicValidator.java:122-137 | the same dispatch for `getIntersection` |
| TopicValidation.EvaluateTopicWithExpression | Base/src/main/java/org/ntnunotif/wsnu/base/topics/TopicValidator.java:152-166 | the same dispatch for `evaluateTopicWithExpression` |
| TopicValidation.EvaluateTopicExpressionToQName | Base/src/main/java/org/ntnunotif/wsnu/base/topics/TopicValidator.java:183-198 | the same dispatch for `evaluateTopicExpressionToQName` |
| TopicValidation.IsLegalExpression | Base/src/main/java/org/ntnunotif/wsnu/base/topics/TopicValidator.java:221-235 | the same dispatch for `isLegalExpression` |
| TopicValidation.UnknownDialectExactlyWhenUnregistered | Base/src/main/java/org/ntnunotif/wsnu/base/topics/TopicValidator.java:89-235 | over an honest registry, each of the five operations reports an unknown dialect if and only if the dialect is not registered |
| TopicValidation.InitialRegistryKnowsExactlyDefaultDialects | Base/src/main/java/org/ntnunotif/wsnu/base/topics/TopicValidator.java:55-65 | after initialisation exactly the four default dialects are known to `getIntersection` |
| TopicValidation.TopicValidator.constructor | Base/src/main/java/org/ntnunotif/wsnu/base/topics/TopicValidator.java:55-65 | the registry starts as the initial registry and the slash flag as false |
| TopicValidation.TopicValidator.AddTopicExpressionEvaluator | Base/src/main/java/org/ntnunotif/wsnu/base/topics/TopicValidator.java:206-211 | the registry gains or replaces the evaluator under its own URI and stays consistent |
| TopicValidation.TopicValidator.IsSlashAsSimpleAndConcreteDialectStartAccepted | Base/src/main/java/org/ntnunotif/wsnu/base/topics/TopicValidator.java:242-245 | answers the stored flag |
| TopicValidation.TopicValidator.SetSlashAsSimpleAndConcreteDialectStartAccepted | Base/src/main/java/org/ntnunotif/wsnu/base/topics/TopicValidator.java:252-255 | the getter answers the value set, the registry is unchanged |
| Filters.Accepted | Services/src/main/java/org/ntnunotif/wsnu/services/filterhandling/FilterEvaluator.java:64-75 | the reference evaluation keeps only accepted messages of the input |
| Filters.AcceptedIsSubsequence | Services/src/main/java/org/ntnunotif/wsnu/services/filterhandling/FilterEvaluator.java:64-75 | the accepted notifications are a subsequence of the given ones |
| Filters.AcceptedEmptyIff | Services/src/main/java/org/ntnunotif/wsnu/services/filterhandling/FilterEvaluator.java:73 | nothing is accepted exactly when no message passes |
| Filters.AcceptedKeepsAccepted | Services/src/main/java/org/ntnunotif/wsnu/services/filterhandling/FilterEvaluator.java:65-66 | every accepted notification of the input is in the result ("all accepted Notifications") |
| Filters.AcceptedIdempotent | Services/src/main/java/org/ntnunotif/wsnu/services/filterhandling/FilterEvaluator.java:64-75 | filtering twice with one acceptance keeps what filtering once keeps |
| Filters.AcceptedAppend | Services/src/main/java/org/ntnunotif/wsnu/services/filterhandling/FilterEvaluator.java:64-75 | filtering distributes over concatenation of notification lists |
| Filters.FilteredIsPermitted | Services/src/main/java/org/ntnunotif/wsnu/services/filterhandling/FilterEvaluator.java:64-75 | the reference evaluation answers `null` or a non-empty, in-order part of the given Notify |
| Filters.FilteredNoneIff | Services/src/main/java/org/ntnunotif/wsnu/services/filterhandling/FilterEvaluator.java:73 | `null` is answered exactly when no notification is accepted |
| Filters.FilteredIdempotent | Services/src/main/java/org/ntnunotif/wsnu/services/filterhandling/FilterEvaluator.java:64-75 | evaluating the result again with the same filter gives the same result |
| Filters.NeverTrueFilterAcceptsNothing | Services/src/main/java/org/ntnunotif/wsnu/services/filterhandling/FilterEvaluator.java:73 | a filter that is never true answers `null` for every Notify |
| Filters.AcceptanceEvaluator | Services/src/main/java/org/ntnunotif/wsnu/services/filterhandling/FilterEvaluator.java:35-75 | an evaluator built from an acceptance test reports the given class and name and evaluates by the reference evaluation |
| Filters.AcceptanceEvaluatorConforms | Services/src/main/java/org/ntnunotif/wsnu/services/filterhandling/FilterEvaluator.java:50-75 | such an evaluator keeps the interface contract: only the faults its filter class permits, and results that are parts of the Notify |
| Subscriptions.InitialTerminationTime | Services/src/main/java/org/ntnunotif/wsnu/services/implementations/notificationproducer/NotificationProducerImpl.java:302-318 | no requested time gives now plus one day; a requested time is accepted exactly when it is interpretable and not before now; every failure is `UnacceptableInitialTerminationTimeFault` |
| Subscriptions.FilterCheck | Services/src/main/java/org/ntnunotif/wsnu/services/implementations/notificationproducer/NotificationProducerImpl.java:281-282 | without filter support every filter is refused |
| Subscriptions.CollectFilters | Services/src/main/java/org/ntnunotif/wsnu/services/implementations/notificationproducer/NotificationProducerImpl.java:272-299 | the filter loop with its early exits computes the reference filter collection |
| Subscriptions.FilterFailureStays | Services/src/main/java/org/ntnunotif/wsnu/services/implementations/notificationproducer/NotificationProducerImpl.java:290-295 | the first refused filter decides the result |
| Subscriptions.AcceptedFiltersSucceedIff | Services/src/main/java/org/ntnunotif/wsnu/services/implementations/notificationproducer/NotificationProducerImpl.java:272-299 | the filters are accepted exactly when every JAXB filter element passes the check, and then each is stored under its name |
| Subscriptions.NoFilterSupportRefusesFilters | Services/src/main/java/org/ntnunotif/wsnu/services/implementations/notificationproducer/NotificationProducerImpl.java:281-295 | without filter support any JAXB filter makes the request fail with `InvalidFilterFault` |
| Subscriptions.RefusalIsInvalidFilter | Services/src/main/java/org/ntnunotif/wsnu/services/implementations/notificationproducer/NotificationProducerImpl.java:290-295 | without filter support the only failure is `InvalidFilterFault` |
| Subscriptions.FiltersOf | Services/src/main/java/org/ntnunotif/wsnu/services/implementations/notificationproducer/NotificationProducerImpl.java:270-299 | no Filter element gives no filters; otherwise the result is the filter collection |
| Subscriptions.SelectKeys | Services/src/main/java/org/ntnunotif/wsnu/services/implementations/notificationproducer/NotificationProducerImpl.java:131-137 | the key loop collects exactly the keys whose values satisfy the test, each once |
| Subscriptions.RemoveKeys | Services/src/main/java/org/ntnunotif/wsnu/services/implementations/notificationproducer/NotificationProducerImpl.java:141-142 | removing the collected keys one by one leaves the other entries unchanged |
| Subscriptions.Unexpired | Services/src/main/java/org/ntnunotif/wsnu/services/implementations/notificationproducer/NotificationProducerImpl.java:131-142 | a subscription survives the sweep exactly when its termination is not before now |
| Subscriptions.UnexpiredIdempotent | Services/src/main/java/org/ntnunotif/wsnu/services/implementations/notificationproducer/NotificationProducerImpl.java:131-142 | a second sweep at the same time removes nothing |
| Subscriptions.UnexpiredMonotone | Services/src/main/java/org/ntnunotif/wsnu/services/implementations/notificationproducer/NotificationProducerImpl.java:131-142 | a later sweep keeps no more subscriptions |
| Subscriptions.SweepExpired | Services/src/main/java/org/ntnunotif/wsnu/services/implementations/notificationproducer/NotificationProducerImpl.java:129-142 | the collect-then-remove sweep computes `Unexpired` |
| Subscriptions.TopicKeyOf | Services/src/main/java/org/ntnunotif/wsnu/services/implementations/notificationproducer/NotificationProducerImpl.java:186-208 | a holder without a topic is skipped; the loop is only ended by a fault other than the three caught topic faults |
| Subscriptions.UnknownDialectIsSkipped | Services/src/main/java/org/ntnunotif/wsnu/services/implementations/notificationproducer/NotificationProducerImpl.java:204-207 | a topic of an unregistered dialect is skipped, not fatal |
| Subscriptions.CacheMessages | Services/src/main/java/org/ntnunotif/wsnu/services/implementations/notificationproducer/NotificationProducerImpl.java:186-210 | the caching loop computes the reference cache, ending at an uncaught fault |
| Subscriptions.CacheAbortStays | Services/src/main/java/org/ntnunotif/wsnu/services/implementations/notificationproducer/NotificationProducerImpl.java:186-210 | after an uncaught fault later holders change nothing |
| Subscriptions.LastCachedUnder | Services/src/main/java/org/ntnunotif/wsnu/services/implementations/notificationproducer/NotificationProducerImpl.java:195-196 | the last holder cached under a topic string is one of the sent holders with that key |
| Subscriptions.CachedHoldsLastPerTopic | Services/src/main/java/org/ntnunotif/wsnu/services/implementations/notificationproducer/NotificationProducerImpl.java:186-210 | without an abort, each topic string maps to the last holder sent on it and other entries are kept |
| Subscriptions.CachedAbortsIff | Services/src/main/java/org/ntnunotif/wsnu/services/implementations/notificationproducer/NotificationProducerImpl.java:186-210 | the loop aborts exactly when some holder raises an uncaught fault |
| Subscriptions.SkippedHoldersKeepCache | Services/src/main/java/org/ntnunotif/wsnu/services/implementations/notificationproducer/NotificationProducerImpl.java:186-210 | holders that are all skipped leave the cache as it was |
| NotificationProducer.SubscribeOutcome | Services/src/main/java/org/ntnunotif/wsnu/services/implementations/notificationproducer/NotificationProducerImpl.java:241-318 | a missing or empty consumer address fails with `SubscribeCreationFailedFault`; on success the address is non-empty, the termination is not before now (now plus one day by default) and the filters are the collected ones |
| NotificationProducer.PastTerminationRefused | Services/src/main/java/org/ntnunotif/wsnu/services/implementations/notificationproducer/NotificationProducerImpl.java:304-310 | a past termination time is refused with `UnacceptableInitialTerminationTimeFault` |
| NotificationProducer.UnsupportedFilterRefused | Services/src/main/java/org/ntnunotif/wsnu/services/implementations/notificationproducer/NotificationProducerImpl.java:281-295 | without filter support any filter makes Subscribe fail with `InvalidFilterFault` |
| NotificationProducer.CurrentMessage | Services/src/main/java/org/ntnunotif/wsnu/services/implementations/notificationproducer/NotificationProducerImpl.java:372-408 | caching off gives `NoCurrentMessageOnTopicFault`, a missing topic `InvalidTopicExpressionFault`, an unknown dialect or any other failure of the topic's evaluation that fault; a resolved topic whose string has no cached message gives `NoCurrentMessageOnTopicFault`, one that has answers exactly the message cached under that string |
| NotificationProducer.ResolvedTopicKey | Services/src/main/java/org/ntnunotif/wsnu/services/implementations/notificationproducer/NotificationProducerImpl.java:194-195 | each holder's topic is read in the context the resolver gives for it |
| NotificationProducer.AfterSubscriptionEvent | Services/src/main/java/org/ntnunotif/wsnu/services/implementations/notificationproducer/NotificationProducerImpl.java:411-433 | an event changes at most the subscription it names |
| NotificationProducer.SubscriptionEventEffects | Services/src/main/java/org/ntnunotif/wsnu/services/implementations/notificationproducer/NotificationProducerImpl.java:411-433 | PAUSE and RESUME set only the flag of an existing subscription, UNSUBSCRIBE removes it, RENEW and others change nothing |
| NotificationProducer.PauseThenResume | Services/src/main/java/org/ntnunotif/wsnu/services/implementations/notificationproducer/NotificationProducerImpl.java:413-424 | pausing then resuming gives back the unpaused handle |
| NotificationProducer.NotificationProducerImpl.constructor | Services/src/main/java/org/ntnunotif/wsnu/services/implementations/notificationproducer/NotificationProducerImpl.java:70-74 | empty tables, default filter support, caching on |
| NotificationProducer.NotificationProducerImpl.SetFilterSupport | Services/src/main/java/org/ntnunotif/wsnu/services/implementations/notificationproducer/NotificationProducerImpl.java:107-109 | replaces the filter support only |
| NotificationProducer.NotificationProducerImpl.SetCacheMessages | Services/src/main/java/org/ntnunotif/wsnu/services/implementations/notificationproducer/NotificationProducerImpl.java:115-117 | replaces the caching flag only |
| NotificationProducer.NotificationProducerImpl.KeyExists | Services/src/main/java/org/ntnunotif/wsnu/services/implementations/notificationproducer/NotificationProducerImpl.java:121-123 | true exactly for keys of the subscription table |
| NotificationProducer.NotificationProducerImpl.GetAllRecipients | Services/src/main/java/org/ntnunotif/wsnu/services/implementations/notificationproducer/NotificationProducerImpl.java:127-153 | removes the expired subscriptions and answers exactly the unpaused remaining keys, each once |
| NotificationProducer.NotificationProducerImpl.GetRecipientFilteredNotify | Services/src/main/java/org/ntnunotif/wsnu/services/implementations/notificationproducer/NotificationProducerImpl.java:163-177 | nothing for an unknown recipient, everything without filter support, otherwise the filter support's evaluation |
| NotificationProducer.NotificationProducerImpl.SendNotification | Services/src/main/java/org/ntnunotif/wsnu/services/implementations/notificationproducer/NotificationProducerImpl.java:181-210 | with caching on, the cache becomes the reference cache of the holders and an uncaught fault is reported; with caching off nothing changes |
| NotificationProducer.NotificationProducerImpl.Subscribe | Services/src/main/java/org/ntnunotif/wsnu/services/implementations/notificationproducer/NotificationProducerImpl.java:241-366 | a refused request changes nothing; an accepted one stores exactly one unpaused handle under the new key and answers its termination time |
| NotificationProducer.NotificationProducerImpl.GetCurrentMessage | Services/src/main/java/org/ntnunotif/wsnu/services/implementations/notificationproducer/NotificationProducerImpl.java:372-408 | answers `CurrentMessage` of the producer's state: the message cached under the resolved topic's string, or the fault for no caching, a missing topic, an unresolvable topic or an uncached one |
| NotificationProducer.NotificationProducerImpl.SubscriptionChanged | Services/src/main/java/org/ntnunotif/wsnu/services/implementations/notificationproducer/NotificationProducerImpl.java:411-433 | the table becomes `AfterSubscriptionEvent` of the old one |
| NotificationProducer.CurrentMessageAfterSend | Services/src/main/java/org/ntnunotif/wsnu/services/implementations/notificationproducer/NotificationProducerImpl.java:186-196 | after sending, GetCurrentMessage on a sent topic answers the message of the last holder on it |
| NotificationProducer.LastCachedUnderFound | Services/src/main/java/org/ntnunotif/wsnu/services/implementations/notificationproducer/NotificationProducerImpl.java:195-196 | a holder cached under a topic string is found as the last one under it or is superseded |
| NotificationProducer.RecipientGetsPartOfNotify | Services/src/main/java/org/ntnunotif/wsnu/services/implementations/notificationproducer/NotificationProducerImpl.java:163-177 | with conforming filter support a recipient only ever gets an in-order part of the Notify |
| GenericBroker.SubscribeOutcome | Services/src/main/java/org/ntnunotif/wsnu/services/implementations/notificationbroker/GenericNotificationBroker.java:139-230 | a missing consumer or an unreadable address fails with `SubscribeCreationFailedFault`; a past or uninterpretable termination time, once consumer and filters pass, fails with `UnacceptableInitialTerminationTimeFault`; on success the address, a termination not before now (default one day) and the collected filters |
| GenericBroker.FilterCheckedBeforeTermination | Services/src/main/java/org/ntnunotif/wsnu/services/implementations/notificationbroker/GenericNotificationBroker.java:169-214 | a refused filter wins over a bad termination time |
| GenericBroker.RequestTopicKey | Services/src/main/java/org/ntnunotif/wsnu/services/implementations/notificationbroker/GenericNotificationBroker.java:108-118 | every topic is read in the one request context |
| GenericBroker.GenericNotificationBroker.constructor | Services/src/main/java/org/ntnunotif/wsnu/services/implementations/notificationbroker/GenericNotificationBroker.java:46-53 | empty tables, default filter support, caching and demand registration on |
| GenericBroker.GenericNotificationBroker.KeyExists | Services/src/main/java/org/ntnunotif/wsnu/services/implementations/notificationbroker/GenericNotificationBroker.java:57-59 | true exactly for keys of the subscription table |
| GenericBroker.GenericNotificationBroker.GetAllRecipients | Services/src/main/java/org/ntnunotif/wsnu/services/implementations/notificationbroker/GenericNotificationBroker.java:63-81 | removes the expired subscriptions and answers every remaining key, paused or not |
| GenericBroker.GenericNotificationBroker.GetRecipientFilteredNotify | Services/src/main/java/org/ntnunotif/wsnu/services/implementations/notificationbroker/GenericNotificationBroker.java:85-99 | nothing for an unknown recipient, everything without filter support, otherwise the filter support's evaluation in the request context |
| GenericBroker.GenericNotificationBroker.SendNotification | Services/src/main/java/org/ntnunotif/wsnu/services/implementations/notificationbroker/GenericNotificationBroker.java:103-135 | with caching on, the cache becomes the reference cache; with caching off nothing changes |
| GenericBroker.GenericNotificationBroker.Subscribe | Services/src/main/java/org/ntnunotif/wsnu/services/implementations/notificationbroker/GenericNotificationBroker.java:139-255 | a refused request changes nothing; an accepted one stores one handle under the new key |
| GenericBroker.GenericNotificationBroker.RegisterPublisher | Services/src/main/java/org/ntnunotif/wsnu/services/implementations/notificationbroker/GenericNotificationBroker.java:281-322 | a missing or unreadable publisher fails with `PublisherRegistrationFailedFault`, a missing time with a null dereference, a past time with `UnacceptableInitialTerminationTimeFault`; nothing is stored |
| GenericBroker.GenericNotificationBroker.GetCurrentMessage | Services/src/main/java/org/ntnunotif/wsnu/services/implementations/notificationbroker/GenericNotificationBroker.java:325-327 | always answers `null` |
| GenericBroker.CacheHoldsLastHolder | Services/src/main/java/org/ntnunotif/wsnu/services/implementations/notificationbroker/GenericNotificationBroker.java:103-135 | after sending, the cache maps each topic string to the last holder sent on it |
| SimpleBroker.AsWrittenKeyExists | Services/src/org/ntnunotif/wsnu/services/implementations/notificationbroker/SimpleNotificationBroker.java:40-46 | `keyExists` on the declared fields throws while the table is `null` |
| SimpleBroker.AsWrittenKeyExistsAlwaysThrows | Services/src/org/ntnunotif/wsnu/services/implementations/notificationbroker/SimpleNotificationBroker.java:40-46 | on a fresh broker `keyExists` throws for every key |
| SimpleBroker.AsWrittenStoreSubscription | Services/src/org/ntnunotif/wsnu/services/implementations/notificationbroker/SimpleNotificationBroker.java:40-41 | the `put` of `subscribe` throws exactly while the table is `null`, and otherwise stores the tuple under the key |
| SimpleBroker.AsWrittenSubscribeNeverStores | Services/src/org/ntnunotif/wsnu/services/implementations/notificationbroker/SimpleNotificationBroker.java:40-41 | on a fresh broker no subscription is ever stored |
| SimpleBroker.AsWrittenStorePublisher | Services/src/org/ntnunotif/wsnu/services/implementations/notificationbroker/SimpleNotificationBroker.java:101 | the `put` of `registerPublisher` throws exactly while the publishers table is `null`, and otherwise stores the tuple under the key |
| SimpleBroker.AsWrittenRegisterPublisherNeverStores | Services/src/org/ntnunotif/wsnu/services/implementations/notificationbroker/SimpleNotificationBroker.java:40-41 | on a fresh broker no publisher registration is ever stored |
| SimpleBroker.SubscribeOutcome | Services/src/org/ntnunotif/wsnu/services/implementations/notificationbroker/SimpleNotificationBroker.java:134-198 | a missing or unparsable consumer fails with `SubscribeCreationFailedFault`, any filter with `InvalidFilterFault`, a past or uninterpretable termination time with `UnacceptableInitialTerminationTimeFault`; on success the parsed endpoint and a termination not before now |
| SimpleBroker.RegisterPublisherOutcome | Services/src/org/ntnunotif/wsnu/services/implementations/notificationbroker/SimpleNotificationBroker.java:80-111 | a missing publisher dereferences `null`, an unparsable one fails with `PublisherRegistrationFailedFault`, a past or missing time is refused |
| SimpleBroker.SimpleNotificationBroker.constructor | Services/src/org/ntnunotif/wsnu/services/implementations/notificationbroker/SimpleNotificationBroker.java:40-41 | corrected broker of the second Findings row: both tables start empty |
| SimpleBroker.SimpleNotificationBroker.KeyExists | Services/src/org/ntnunotif/wsnu/services/implementations/notificationbroker/SimpleNotificationBroker.java:44-46 | corrected broker of the second Findings row (as written it throws): true exactly for keys of either table |
| SimpleBroker.SimpleNotificationBroker.GetRecipients | Services/src/org/ntnunotif/wsnu/services/implementations/notificationbroker/SimpleNotificationBroker.java:49-51 | corrected broker of the second Findings row (as written it throws): one recipient per subscription, the tuple stored under each key in the map's enumeration order, so each tuple occurs as often as there are keys holding it |
| SimpleBroker.RecipientCounts | Services/src/org/ntnunotif/wsnu/services/implementations/notificationbroker/SimpleNotificationBroker.java:49-51 | the values of the table, listed under an enumeration of its keys, hold each tuple exactly as often as keys map to it |
| SimpleBroker.EnumerationLength | Services/src/org/ntnunotif/wsnu/services/implementations/notificationbroker/SimpleNotificationBroker.java:49-51 | an enumeration of the keys has one entry per subscription |
| SimpleBroker.SimpleNotificationBroker.Notify | Services/src/org/ntnunotif/wsnu/services/implementations/notificationbroker/SimpleNotificationBroker.java:56-63 | every listener gets the same event, in order |
| SimpleBroker.SimpleNotificationBroker.RegisterPublisher | Services/src/org/ntnunotif/wsnu/services/implementations/notificationbroker/SimpleNotificationBroker.java:80-111 | corrected broker of the second Findings row (as written the `put` throws): an accepted registration is stored under the new key, a refused one changes nothing, and no other key's membership changes |
| SimpleBroker.SimpleNotificationBroker.Subscribe | Services/src/org/ntnunotif/wsnu/services/implementations/notificationbroker/SimpleNotificationBroker.java:134-198 | corrected broker of the second Findings row (as written the `put` throws): an accepted subscription is stored under the new key, a refused one changes nothing, and no other key's membership changes |
| PublisherRegistration.DestroyDecisionOf | Services/src/main/java/org/ntnunotif/wsnu/services/implementations/publisherregistrationmanager/SimplePublisherRegistrationManager.java:88-132 | without the parameter or with no value: refused; one registered value: removed; one unknown value: refused; several values: refused when the first is registered, answered without removal otherwise |
| PublisherRegistration.AfterDestroy | Services/src/main/java/org/ntnunotif/wsnu/services/implementations/publisherregistrationmanager/SimplePublisherRegistrationManager.java:88-132 | only the named registration disappears, the rest is unchanged |
| PublisherRegistration.DestroyRemovesOnlyTheNamedReference | Services/src/main/java/org/ntnunotif/wsnu/services/implementations/publisherregistrationmanager/SimplePublisherRegistrationManager.java:88-132 | the table changes if and only if exactly one registered reference is named, and then only it is removed |
| PublisherRegistration.ResponseWithoutRemovalMeansUnknown | Services/src/main/java/org/ntnunotif/wsnu/services/implementations/publisherregistrationmanager/SimplePublisherRegistrationManager.java:88-132 | a response that removes nothing comes only from several values whose first is unknown |
| PublisherRegistration.AsWrittenRemaining | Services/src/main/java/org/ntnunotif/wsnu/services/implementations/publisherregistrationmanager/SimplePublisherRegistrationManager.java:139-156 | as written, the sweep keeps exactly the registrations whose end is not after now |
| PublisherRegistration.AsWrittenUpdate | Services/src/main/java/org/ntnunotif/wsnu/services/implementations/publisherregistrationmanager/SimplePublisherRegistrationManager.java:139-156 | the as-written collect-then-remove loop computes `AsWrittenRemaining` |
| PublisherRegistration.AsWrittenUpdateDropsLiveKeepsExpired | Services/src/main/java/org/ntnunotif/wsnu/services/implementations/publisherregistrationmanager/SimplePublisherRegistrationManager.java:139-156 | as written, a live registration is dropped and an expired one kept |
| PublisherRegistration.LiveRegistrations | Services/src/main/java/org/ntnunotif/wsnu/services/implementations/publisherregistrationmanager/SimplePublisherRegistrationManager.java:134-139 | the registrations that have not ended before now, unchanged |
| PublisherRegistration.LiveRegistrationsIdempotent | Services/src/main/java/org/ntnunotif/wsnu/services/implementations/publisherregistrationmanager/SimplePublisherRegistrationManager.java:139-156 | a second sweep at the same time removes nothing |
| PublisherRegistration.SweepsDisagreeOnLiveRegistrations | Services/src/main/java/org/ntnunotif/wsnu/services/implementations/publisherregistrationmanager/SimplePublisherRegistrationManager.java:147-149 | every registration ending after now is kept by the corrected sweep and dropped by the written one |
| PublisherRegistration.AddedRegistrationSurvivesSweep | Services/src/main/java/org/ntnunotif/wsnu/services/implementations/publisherregistrationmanager/SimplePublisherRegistrationManager.java:56-58 | a registration added with an end not before now survives the next sweep with its end |
| PublisherRegistration.SimplePublisherRegistrationManager.constructor | Services/src/main/java/org/ntnunotif/wsnu/services/implementations/publisherregistrationmanager/SimplePublisherRegistrationManager.java:31-37 | the table starts empty |
| PublisherRegistration.SimplePublisherRegistrationManager.AddPublisher | Services/src/main/java/org/ntnunotif/wsnu/services/implementations/publisherregistrationmanager/SimplePublisherRegistrationManager.java:56-58 | the table maps the endpoint to the new end, everything else unchanged |
| PublisherRegistration.SimplePublisherRegistrationManager.RemovePublisher | Services/src/main/java/org/ntnunotif/wsnu/services/implementations/publisherregistrationmanager/SimplePublisherRegistrationManager.java:67-69 | the endpoint is forgotten, everything else unchanged |
| PublisherRegistration.SimplePublisherRegistrationManager.FirePublisherRegistrationChanged | Services/src/main/java/org/ntnunotif/wsnu/services/implementations/publisherregistrationmanager/AbstractPublisherRegistrationManager.java:120-125 | every listener gets the same event, in order |
| PublisherRegistration.SimplePublisherRegistrationManager.DestroyRegistration | Services/src/main/java/org/ntnunotif/wsnu/services/implementations/publisherregistrationmanager/SimplePublisherRegistrationManager.java:88-132 | the scan over the parameters acts as `DestroyDecisionOf`: a refusal is `ResourceNotDestroyedFault`, and a removal is followed by a DESTROYED event to every listener |
| PublisherRegistration.SimplePublisherRegistrationManager.Update | Services/src/main/java/org/ntnunotif/wsnu/services/implementations/publisherregistrationmanager/SimplePublisherRegistrationManager.java:134-156 | the corrected sweep leaves exactly the live registrations |
| Connector.OperationName | Base/src/org/ntnunotif/wsnu/base/internal/UnpackingConnector.java:47-56 | a method has an operation name exactly when it has a `@WebMethod`, and the name is that of one of them |
| Connector.AllowedMethodsKeys | Base/src/org/ntnunotif/wsnu/base/internal/UnpackingConnector.java:43-58 | the table knows exactly the operation names of the `@WebMethod` methods |
| Connector.AllowedMethodsFiledByName | Base/src/org/ntnunotif/wsnu/base/internal/UnpackingConnector.java:49-53 | every entry is filed under its own method's operation name |
| Connector.AllowedMethodsLastWins | Base/src/org/ntnunotif/wsnu/base/internal/UnpackingConnector.java:43-58 | of several methods with one operation name, the last one is entered |
| Connector.BuildAllowedMethods | Base/src/org/ntnunotif/wsnu/base/internal/UnpackingConnector.java:43-58 | the nested scan with its `break` builds the reference table |
| Connector.ElementStepReply | Base/src/org/ntnunotif/wsnu/base/internal/UnpackingConnector.java:89-140 | one body element either decides a reply of the permitted kinds or passes on |
| Connector.Dispatch | Base/src/org/ntnunotif/wsnu/base/internal/UnpackingConnector.java:83-143 | every reply is `null`, STATUS_OK with or without the returned object, STATUS_INVALID_DESTINATION or STATUS_FAULT_UNKNOWN_METHOD; which one is stated by the lemmas below |
| Connector.AcceptMessageOutcome | Base/src/org/ntnunotif/wsnu/base/internal/UnpackingConnector.java:64-144 | a payload that is not an envelope is an invalid payload fault; an envelope is dispatched |
| Connector.UnknownRootNameIsInvalidDestination | Base/src/org/ntnunotif/wsnu/base/internal/UnpackingConnector.java:92-138 | a first element whose root name has no method gives STATUS_INVALID_DESTINATION |
| Connector.UnknownRootStep | Base/src/org/ntnunotif/wsnu/base/internal/UnpackingConnector.java:92-138 | within an element, an unknown root name decides invalid destination |
| Connector.KnownRootNameInvokes | Base/src/org/ntnunotif/wsnu/base/internal/UnpackingConnector.java:95-125 | a known root name invokes its method and answers OK, with the returned object unless the method is `void` |
| Connector.IllegalAccessStep | Base/src/org/ntnunotif/wsnu/base/internal/UnpackingConnector.java:95-131 | within an element, a known root name whose method cannot be accessed decides a `null` reply |
| Connector.UndecidedElementsSkipped | Base/src/org/ntnunotif/wsnu/base/internal/UnpackingConnector.java:89-140 | elements that decide nothing are passed over: the dispatch equals the dispatch of the rest |
| Connector.IllegalAccessIsNullReply | Base/src/org/ntnunotif/wsnu/base/internal/UnpackingConnector.java:89-140 | after undecided elements, an element whose known method cannot be accessed makes the reply `null` |
| Connector.NothingDispatchedIsUnknownMethod | Base/src/org/ntnunotif/wsnu/base/internal/UnpackingConnector.java:83-143 | a body where nothing is decided ends with STATUS_FAULT_UNKNOWN_METHOD |
| Connector.NothingDecidedInElement | Base/src/org/ntnunotif/wsnu/base/internal/UnpackingConnector.java:89-140 | an element without decisive annotation passes on |
| Connector.UnpackingConnector.constructor | Base/src/org/ntnunotif/wsnu/base/internal/UnpackingConnector.java:35-59 | the table of allowed methods is the reference table of the service's methods |
| Connector.UnpackingConnector.AcceptMessage | Base/src/org/ntnunotif/wsnu/base/internal/UnpackingConnector.java:64-144 | the nested scan with early returns answers `AcceptMessageOutcome` |
| Connector.UnpackingConnector.GetServiceFunctionality | Base/src/org/ntnunotif/wsnu/base/internal/UnpackingConnector.java:152-154 | every entry of the answered table is filed under its method's operation name |
| WebServices.PatternText | Services/src/main/java/org/ntnunotif/wsnu/services/general/WebService.java:246 | an unset pure reference enters the pattern as the text `null` |
| WebServices.StripLeadingSlash | Services/src/main/java/org/ntnunotif/wsnu/services/general/WebService.java:251 | exactly one leading slash is removed |
| WebServices.RelativeEndpointAcceptsItsPaths | Services/src/main/java/org/ntnunotif/wsnu/services/general/WebService.java:246 | a request for the endpoint followed by any single-line rest, with or without a leading slash, is accepted as a destination |
| WebServices.RemoveFirst | Services/src/main/java/org/ntnunotif/wsnu/services/general/WebService.java:406-408 | removing an absent manager changes nothing, a present one shortens the list by one |
| WebServices.RemoveFirstAtFirstOccurrence | Services/src/main/java/org/ntnunotif/wsnu/services/general/WebService.java:406-408 | the first copy is the one removed: the managers before it and after it stay, in order |
| WebServices.RemoveFirstTakesOneCopy | Services/src/main/java/org/ntnunotif/wsnu/services/general/WebService.java:406-408 | exactly one copy of the manager leaves the list |
| WebServices.RemoveFirstUndoesAppend | Services/src/main/java/org/ntnunotif/wsnu/services/general/WebService.java:398-408 | removing a manager just added (and not present before) restores the list |
| WebServices.AcceptRequestOutcome | Services/src/main/java/org/ntnunotif/wsnu/services/general/WebService.java:217-267 | a WSDL query without location is not found, with one it serves the file at the WSDL location (not found if it cannot be opened); a foreign destination is invalid; one refusing manager denies access; an accepted request serves the file its URI names without leading slashes (not found if it cannot be opened); only a stream is a success, and every failure carries the fault flag |
| WebServices.GatesComeBeforeFiles | Services/src/main/java/org/ntnunotif/wsnu/services/general/WebService.java:246-258 | when the destination or a manager refuses, the file system makes no difference and the answer is a fault |
| WebServices.AsWrittenManagersAfterConstruction | Services/src/main/java/org/ntnunotif/wsnu/services/general/WebService.java:62-72 | as written, only the constructor without a hub creates the manager list |
| WebServices.AsWrittenAddContentManager | Services/src/main/java/org/ntnunotif/wsnu/services/general/WebService.java:398-400 | as written, adding throws exactly while the list is `null` |
| WebServices.AsWrittenHubServiceRefusesManagers | Services/src/main/java/org/ntnunotif/wsnu/services/general/WebService.java:70-72 | as written, a service built with a hub throws on its first content manager |
| WebServices.WebService.constructor | Services/src/main/java/org/ntnunotif/wsnu/services/general/WebService.java:62-64 | no managers, hub, connection, references or WSDL location |
| WebServices.WebService.WithHub | Services/src/main/java/org/ntnunotif/wsnu/services/general/WebService.java:70-72 | the given hub and, corrected, an empty manager list |
| WebServices.WebService.ForceEndpointReference | Services/src/main/java/org/ntnunotif/wsnu/services/general/WebService.java:169-178 | both references are set and the connection, if any, is told the new reference |
| WebServices.WebService.SetEndpointReference | Services/src/main/java/org/ntnunotif/wsnu/services/general/WebService.java:129-157 | a backslash is an illegal argument, a full URL is forced, a relative reference without a hub is an illegal state, otherwise it is placed below the hub's address; a thrown exception changes nothing |
| WebServices.WebService.AddContentManager | Services/src/main/java/org/ntnunotif/wsnu/services/general/WebService.java:398-400 | appends the manager |
| WebServices.WebService.RemoveContentManager | Services/src/main/java/org/ntnunotif/wsnu/services/general/WebService.java:406-408 | removes the first copy of the manager |
| WebServices.WebService.ClearContentManagers | Services/src/main/java/org/ntnunotif/wsnu/services/general/WebService.java:413-415 | empties the list |
| WebServices.WebService.SetWsdlLocation | Services/src/main/java/org/ntnunotif/wsnu/services/general/WebService.java:507-516 | the location is set and true answered exactly when the path is a file |
| WebServices.WebService.SetConnection | Services/src/main/java/org/ntnunotif/wsnu/services/general/WebService.java:532-534 | the service is connected, nothing else changes |
| WebServices.WebService.AcceptRequest | Services/src/main/java/org/ntnunotif/wsnu/services/general/WebService.java:217-267 | a service without a connection throws `NullPointerException` before any check; a connected one answers, by the manager loop with early return, `AcceptRequestOutcome` of its request information |
| AppServer.CopiedBody | Base/src/main/java/org/ntnunotif/wsnu/base/net/ApplicationServer.java:355-360 | only an input stream can be copied; `null` dereferences, anything else fails the cast |
| AppServer.FaultCode | Base/src/main/java/org/ntnunotif/wsnu/base/net/ApplicationServer.java:368-387 | a fault without a message: 404 for invalid destination, else 500 for internal error, else 400 for invalid payload, else the access-not-allowed code, else 500 |
| AppServer.ResponseTable | Base/src/main/java/org/ntnunotif/wsnu/base/net/ApplicationServer.java:343-419 | no reply 500; a fault with a message 500 with the copied stream (`null` or a non-stream throws); a fault without one its `FaultCode`; OK with a message 500 for a `null` message, else 200 with the copied stream; any other reply 200 without a body; a body only ever comes from a flagged stream |
| AppServer.HandleAsWritten | Base/src/main/java/org/ntnunotif/wsnu/base/net/ApplicationServer.java:343-419 | the handler's status chain, with the 403 overwritten, answers `AsWrittenResponse`, that is `ResponseTable` with 500 as the access-not-allowed code |
| AppServer.AsWrittenAccessNotAllowedIs500 | Base/src/main/java/org/ntnunotif/wsnu/base/net/ApplicationServer.java:381-387 | as written, access not allowed is answered with 500 |
| AppServer.AccessNotAllowedIs403 | Base/src/main/java/org/ntnunotif/wsnu/base/net/ApplicationServer.java:381-383 | corrected, access not allowed is answered with 403 |
| AppServer.TablesDifferOnlyOnAccessNotAllowed | Base/src/main/java/org/ntnunotif/wsnu/base/net/ApplicationServer.java:368-387 | the written and the corrected handler differ exactly on a fault whose only decisive flag is access-not-allowed |
| AppServer.FaultWinsOverOk | Base/src/main/java/org/ntnunotif/wsnu/base/net/ApplicationServer.java:350-387 | the fault flag is looked at before the OK flag |
| AppServer.FaultFlagsInOrder | Base/src/main/java/org/ntnunotif/wsnu/base/net/ApplicationServer.java:368-387 | a fault reply without a message is answered without a body: invalid destination 404, then internal error 500, then invalid payload 400, then the access-not-allowed code, and a fault of no known kind 500 |
| AppServer.UnflaggedReplyIs200 | Base/src/main/java/org/ntnunotif/wsnu/base/net/ApplicationServer.java:410-419 | a reply with neither OK nor FAULT is answered with 200 |
| AppServer.Handle | Base/src/main/java/org/ntnunotif/wsnu/base/net/ApplicationServer.java:343-419 | the corrected handler answers `Response`, that is `ResponseTable` with 403 for access not allowed |
| AppServer.SendMessage | Base/src/main/java/org/ntnunotif/wsnu/base/net/ApplicationServer.java:243-286 | no endpoint is a fault without a request; a message that is not a stream is refused; a request is made exactly when an endpoint exists and the message is absent or a stream, and only a received answer is OK |
| AppServer.Sent | Base/src/main/java/org/ntnunotif/wsnu/base/net/ApplicationServer.java:262-285 | the outcome records the request made |
| AppServer.DecimalText | Base/src/main/java/org/ntnunotif/wsnu/base/net/ApplicationServer.java:423-425 | a port is written as a non-empty string of decimal digits |
| AppServer.DecimalTextRoundTrip | Base/src/main/java/org/ntnunotif/wsnu/base/net/ApplicationServer.java:423-425 | the digits read back as the port |
| AppServer.DefaultPortText | Base/src/main/java/org/ntnunotif/wsnu/base/net/ApplicationServer.java:423-425 | the default port is written `8080` |
| AppServer.ApplicationServer.constructor | Base/src/main/java/org/ntnunotif/wsnu/base/net/ApplicationServer.java:74-79 | not running, never invoked, no instance, no hub |
| AppServer.ApplicationServer.GetInstance | Base/src/main/java/org/ntnunotif/wsnu/base/net/ApplicationServer.java:118-126 | the first successful call creates the singleton, later calls answer the same one |
| AppServer.ApplicationServer.Start | Base/src/main/java/org/ntnunotif/wsnu/base/net/ApplicationServer.java:146-174 | a stopped server starts with the given hub; a running one keeps its hub |
| AppServer.ApplicationServer.Stop | Base/src/main/java/org/ntnunotif/wsnu/base/net/ApplicationServer.java:132-140 | the server is running afterwards exactly when it was running and the stop failed |
| AppServer.ApplicationServer.GetURI | Base/src/main/java/org/ntnunotif/wsnu/base/net/ApplicationServer.java:423-425 | no instance dereferences `null`; an unset port gives `host:8080`; otherwise `host:` followed by digits that read back as the port |

## Left out

- Delivery to recipients: `super.sendNotification`, the SOAP sending and `manager.addSubscriber` belong to classes outside this model. `SendNotification` ends after the caching loop.
- `FilterEvaluator.evaluate` may alter its argument. The model treats it as a function of its inputs.
- Conversion of the termination time into an `XMLGregorianCalendar`, and its failure path, are not modelled. Termination times are milliseconds.
- Subscription and registration references are represented by their keys. The URL built from them is not modelled.
- `SimpleBroker.SimpleNotificationBroker.Subscribe`: its response carries only the key. The source sets an empty calendar as the termination time.
- Logging, `printStackTrace`, `synchronized` and the scheduler that calls `update` are not modelled.
- The Jetty server, its threads, the byte copying of streams and `HttpClient` are not modelled. Outgoing requests and the streams are values.
- `quickBuild`, `generateWSDLandXSDSchemas`, `getServiceType`, `restart`, `setHandler`, `setServerConfiguration`, `addStandardConnector` and `addConnector` are not modelled. They only build infrastructure.
- `SimpleBroker`: `getCurrentMessage` reads a `currentMessage` inherited from a class outside this model. `acceptSoapMessage` and `acceptRequest` only return `null`.
- `Connector.UnpackingConnector.AcceptMessage`: the reflection call is `invoke`, a parameter, and methods carry no parameter count. A `@WebMethod` with no parameters makes the source throw `ArrayIndexOutOfBoundsException` when it stores the message in the empty argument array; that exception escapes `acceptMessage`, while the model invokes the method and answers as for any other. For more than one parameter the extra arguments are `null`, which is left to `invoke`.
- `WebServices.MatchesEndpoint`: the pure endpoint reference is matched as a literal prefix, not as a regular expression.
- `XPathDialect.XPathTopicEvaluator`: `isLegalExpression` is a parameter, because its code is not part of this model. The Simple, Concrete and Full evaluators are parameters for the same reason.
- The numeric values of the `STATUS_*` flags are not known to this model. Each flag is a boolean, and `STATUS_INVALID_DESTINATION`, `STATUS_FAULT_UNKNOWN_METHOD` and `STATUS_FAULT_INTERNAL_ERROR` are used without the fault flag, as the code that sets them writes them.
- `WebServices.WebService.AcceptRequest` models the loop over the request parameters as a test for a `wsdl` key. Its `requestInformation` parameter stands for `connection.getRequestInformation()`. `getConnection` is the field `connection` itself.
- Request context of the other services: `NotificationProducer.NotificationProducerImpl.Subscribe`, `NotificationProducer.NotificationProducerImpl.GetCurrentMessage`, `GenericBroker.GenericNotificationBroker.Subscribe`, `GenericBroker.GenericNotificationBroker.RegisterPublisher` and `PublisherRegistration.SimplePublisherRegistrationManager.DestroyRegistration` each begin by reading `connection.getRequestInformation()`. The model passes what they read from it (the namespace context, the resolver or the request parameters) as parameters, or leaves it out where it is unused. The `NullPointerException` these throw when the service has no connection is not modelled for them.
- The content managers' `accepts`, `Utilities.stripUrlOfProtocolAndHost`, `Hub.getInetAdress` and the file system are parameters.
- `WebServices.WebService.SetEndpointReference`: `notified` stands for the call `connection.endpointUpdated`.
- `AppServer.SendMessage`: a message flagged as a stream whose payload is `null` is answered as an internal error without making a request. The source builds the request and fails while sending it. A payload of any other type is answered as an invalid payload, which is where the cast in the source fails.
- `WebServices.RemoveFirst`: its own contract gives only lengths; that the first copy is the one removed and the order of the rest is kept is stated for every first occurrence by `WebServices.RemoveFirstAtFirstOccurrence`.
- `SimpleBroker.SimpleNotificationBroker.GetRecipients` answers the stored tuples, as the source's `values()` does, not endpoint strings. The hash map's enumeration order of its keys is not modelled: it is the parameter `order`.
- `PublisherRegistration.DestroyDecisionOf` keeps the inverted test for several values as written. It is stated, not corrected, because the intended behaviour there is not evident.

## Findings

| source | as written | input that shows it | evidently intended | confidence | as-written member | corrected member |
|---|---|---|---|---|---|---|
| Services/src/main/java/org/ntnunotif/wsnu/services/implementations/publisherregistrationmanager/SimplePublisherRegistrationManager.java:139-156 | `update` removes the registrations whose end is after now | registrations `live` ending at now+1 and `expired` ending at now-1: `live` is removed, `expired` kept | remove the registrations that have ended, as the method's comment says | not executed | PublisherRegistration.AsWrittenUpdateDropsLiveKeepsExpired | PublisherRegistration.SimplePublisherRegistrationManager.Update |
| Services/src/org/ntnunotif/wsnu/services/implementations/notificationbroker/SimpleNotificationBroker.java:40-41 | the two tables are declared and never created | a fresh broker: `keyExists("k")` dereferences `null`, and a successful `subscribe` cannot store | tables created empty, `keyExists` true for stored keys | not executed | SimpleBroker.AsWrittenKeyExistsAlwaysThrows | SimpleBroker.SimpleNotificationBroker.KeyExists |
| Base/src/main/java/org/ntnunotif/wsnu/base/net/ApplicationServer.java:381-387 | the 403 for access not allowed is overwritten by 500, because the branch does not return | a reply flagged FAULT and FAULT_ACCESS_NOT_ALLOWED only: answered 500 | answer 403 | not executed | AppServer.AsWrittenAccessNotAllowedIs500 | AppServer.AccessNotAllowedIs403 |
| Services/src/main/java/org/ntnunotif/wsnu/services/general/WebService.java:70-72 | the constructor with a hub does not create the content-manager list | `new WebService(hub)` followed by `addContentManager(m)` dereferences `null` | an empty list, as the other constructor creates | not executed | WebServices.AsWrittenHubServiceRefusesManagers | WebServices.WebService.WithHub |
