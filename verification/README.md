# Verification of the openframe adapters

This project models the parts of the openframe adapters that hold real
protocols and algorithms, and proves what they promise. It stands on its own:
`dafny verify dfyconfig.toml` checks every file.

**Queue consumers** (`Kafka.dfy`, `Rabbitmq.dfy`, `Nats.dfy`). Each consumer is
modelled twice. The protocol is a state machine over the broker and the
consumer: an event is whatever happens at an `await` (a delivery, the handler
returning or raising, a commit or ack stored by the broker or lost, `close()`
running one of its segments, a cancellation, a crash, a new session), an event
that cannot happen changes nothing, and a run is any sequence of events. The
consumer class has the fields and the methods of the source, one method per
stretch between awaits, and its `subscribe` loop is proved to leave exactly the
state of the protocol's run. The history (`notes`) is only written, so the main
results can be said about what happened rather than about fields. Beside what is
never done stands what gets done: each outcome of a handler reaches the broker, a
session left alone drains what is there, and every way out leaves a consumer that
can subscribe again. `RabbitOverlap` asks what is left of RabbitMQ's settlement when several loops share one consumer.

**Client caches and the Cassandra bridge** (`ClientCache.dfy`,
`CassandraBridge.dfy`). Tasks are suspended at their awaits and interleave in
any order. The two orders of `close` are compared on the same state machine.
The bridge has a reactor thread, a loop queue, a timeout and a cancelling
caller; the frames of its methods say which of them may write the future.

**SQL** (`SqlText.dfy`, `SqlServer.dfy`, `SqlRepository.dfy`). The builders of the
four dialects produce texts; a scanner and parser written from the grammar, not
from the builders, read them back; an interpreter runs the parsed statements on
a table of rows; and the table stands for a finite map from id to row. The
repository classes send texts and values, and their contracts speak only of
that map.

**Stores** (`Redis.dfy`, `Paging.dfy`, `Mongo.dfy`, `Chroma.dfy`). Redis is a shared
keyspace under interleaved callers, timeouts and expiring keys, refined to one
finite map per prefix. Paging is DynamoDB's early-stopping scan and Cassandra's
fetch-then-slice. MongoDB's dicts are heap objects, so that "the caller's dict
is never modified" is a fact about frames. Chroma is the transposition between
rows and parallel columns.

**Checklist script** (`Checklist.dfy`): version parsing, the pin check beside
PEP 440's sections "Final releases", "Inclusive ordered comparison" and
"Exclusive ordered comparison", and the block-list reader.

`Text.dfy` holds what the texts share (decimal numerals, runs of characters,
joining), `Settlements.dfy` what the RabbitMQ and NATS histories share, and finite
sets.

Where code and documentation differ the code is followed. The docstring of
Kafka's `nack` says that the message will be redelivered; the code only avoids
committing, and `LostExactlyWhenPassedOver`, `RedeliveredUnlessCovered` and
`NackedMessageCanBeLost` say exactly what is true of it. Cassandra's `create`
is described as an insert and is an upsert; DynamoDB's `create` is described as
an insert and replaces a taken id.

Drivers, brokers and servers are abstract: their choices (which message is
delivered, whether a commit or command is applied before a timeout, how a scan
is split, in which order SCAN yields keys, what a default is) are arguments or
events over which every result quantifies.

## Model

| member | source | states |
|---|---|---|
| KafkaProtocol.CommittedExactlyCovered | packages/openframe-adapters-queue-kafka/openframe/adapters/queue/kafka/consumer.py:170-215 | over every run an offset is below the committed one exactly when some session took it and later had a commit applied; no commit passes an offset the loop never attempted |
| KafkaProtocol.CommitsOnlyAdvance | packages/openframe-adapters-queue-kafka/openframe/adapters/queue/kafka/consumer.py:170-251 | no crash, swallowed commit error, close() or new session lowers a committed offset or moves it past the log |
| KafkaProtocol.LostExactlyWhenPassedOver | packages/openframe-adapters-queue-kafka/openframe/adapters/queue/kafka/consumer.py:184-236 | a message never handled is committed, hence lost, exactly when its failure was followed in the same session by another message's success whose commit was applied |
| KafkaProtocol.RedeliveredUnlessCovered | packages/openframe-adapters-queue-kafka/openframe/adapters/queue/kafka/consumer.py:217-236 | what holds of nack's promise: the next session starts at or below the message exactly when no commit of the session that took it came later |
| KafkaProtocol.SessionSkipsNothing | packages/openframe-adapters-queue-kafka/openframe/adapters/queue/kafka/consumer.py:170-183 | a live session's position passes only messages that were committed before or that it took itself |
| KafkaProtocol.NackedMessageCanBeLost | packages/openframe-adapters-queue-kafka/openframe/adapters/queue/kafka/consumer.py:217-236 | a run after which a nacked message stays below the committed offset whatever happens next, so it never comes again |
| KafkaProtocol.PoisonHeadBlocksForever | packages/openframe-adapters-queue-kafka/openframe/adapters/queue/kafka/consumer.py:174-198 | while the committed head of every partition cannot be decoded, `message` is unbound, every session ends at its first message, and the committed offsets stay for ever, whatever happens |
| KafkaProtocol.PoisonArrives | packages/openframe-adapters-queue-kafka/openframe/adapters/queue/kafka/consumer.py:174-198 | one message that cannot be decoded is enough to get there |
| KafkaProtocol.PoisonPassedExactlyWhenBound | packages/openframe-adapters-queue-kafka/openframe/adapters/queue/kafka/consumer.py:174-190 | over every run a message that cannot be decoded is committed exactly when the session that took it had decoded another one before, so that `message` was bound, and had a commit applied after |
| KafkaProtocol.HandledIsCommitted | packages/openframe-adapters-queue-kafka/openframe/adapters/queue/kafka/consumer.py:183-215 | in every run, while the session has its consumer, a handler that returns is followed by a commit that covers its message and by the next pull; without a consumer, or after a handler that raised, nothing is committed |
| KafkaProtocol.SessionDrains | packages/openframe-adapters-queue-kafka/openframe/adapters/queue/kafka/consumer.py:148-213 | from any idle state of any run, a session left alone handles the rest of a partition in order, each message once, and commits all of it |
| KafkaProtocol.OnlyDecodedAreHandled | packages/openframe-adapters-queue-kafka/openframe/adapters/queue/kafka/consumer.py:174-190 | in every run the handler is never given a message that does not decode: each such attempt fails at once |
| KafkaProtocol.BrokenEndsSessionExactly | packages/openframe-adapters-queue-kafka/openframe/adapters/queue/kafka/consumer.py:174-198 | in every run a message that does not decode fails and its offset is passed; the loop goes on after bad headers, and after a bad body exactly when the session had decoded a message before |
| KafkaProtocol.CloseStopsTaking | packages/openframe-adapters-queue-kafka/openframe/adapters/queue/kafka/consumer.py:171-172 | whatever happens after close() has begun, no message is taken until a session's start() returns |
| KafkaProtocol.CloseStopsCommits | packages/openframe-adapters-queue-kafka/openframe/adapters/queue/kafka/consumer.py:200-251 | whatever happens after close() has ended, unless a commit was under way then, nothing is committed until a new session, so a handler that still returns has its message delivered again |
| KafkaProtocol.CloseForgets | packages/openframe-adapters-queue-kafka/openframe/adapters/queue/kafka/consumer.py:238-251 | a close() that finds a consumer leaves none; one that finds none awaits nothing |
| KafkaProtocol.SessionEnds | packages/openframe-adapters-queue-kafka/openframe/adapters/queue/kafka/consumer.py:148-198 | every way out of a session, once stop() has returned, leaves a consumer that can subscribe again and starts at the committed offsets |
| KafkaProtocol.SessionInterrupted | packages/openframe-adapters-queue-kafka/openframe/adapters/queue/kafka/consumer.py:191-198 | a cancellation inside start() or stop() ends the session and leaves the fields; a crash forgets them but no offset |
| KafkaConsumerModel.KafkaConsumer.Close | packages/openframe-adapters-queue-kafka/openframe/adapters/queue/kafka/consumer.py:238-251 | close() up to its await: stops the loop and calls stop() if there is a consumer |
| KafkaConsumerModel.KafkaConsumer.CloseResumed | packages/openframe-adapters-queue-kafka/openframe/adapters/queue/kafka/consumer.py:246-251 | close() after its await forgets the consumer |
| KafkaConsumerModel.KafkaConsumer.Body | packages/openframe-adapters-queue-kafka/openframe/adapters/queue/kafka/consumer.py:171-190 | one message up to the handler: break when not running, a failed decode counts as an attempt, a failed first decode leaves the loop |
| KafkaConsumerModel.KafkaConsumer.HandlerResumed | packages/openframe-adapters-queue-kafka/openframe/adapters/queue/kafka/consumer.py:179-190 | a returned handler leads to a commit if there is a consumer, a raised one to no broker call |
| KafkaConsumerModel.KafkaConsumer.Commit | packages/openframe-adapters-queue-kafka/openframe/adapters/queue/kafka/consumer.py:200-215 | commit stores the positions of all partitions; its errors are swallowed, a cancellation is not |
| KafkaConsumerModel.KafkaConsumer.FinallyBlock | packages/openframe-adapters-queue-kafka/openframe/adapters/queue/kafka/consumer.py:191-198 | the finally block stops the consumer if it is still there, and clears both fields |
| KafkaConsumerModel.KafkaConsumer.Consume | packages/openframe-adapters-queue-kafka/openframe/adapters/queue/kafka/consumer.py:170-198 | the loop, driven by any script of events, ends in exactly the state of the protocol's run over the events it used |
| KafkaConsumerModel.KafkaConsumer.Subscribe | packages/openframe-adapters-queue-kafka/openframe/adapters/queue/kafka/consumer.py:148-198 | subscribe() as a whole refines the protocol: after every script the fields are the protocol's state |
| RabbitProtocol.Conservation | packages/openframe-adapters-queue-rabbitmq/openframe/adapters/queue/rabbitmq/consumer.py:175-289 | over every run the published messages are exactly ready, unacked or acked, each in one place and counted once, and no channel holds more than the prefetch count |
| RabbitProtocol.AckedOnlyAfterItsHandlerReturned | packages/openframe-adapters-queue-rabbitmq/openframe/adapters/queue/rabbitmq/consumer.py:199-216 | an acked message has a delivery whose own handler call returned and was at once followed by the ack |
| RabbitProtocol.OneSettlementPerDelivery | packages/openframe-adapters-queue-rabbitmq/openframe/adapters/queue/rabbitmq/consumer.py:204-223 | every finished handler call is followed at once by exactly one settlement of that delivery: ack if it returned, nack if it raised |
| RabbitProtocol.CurrentIsTheMessageInHand | packages/openframe-adapters-queue-rabbitmq/openframe/adapters/queue/rabbitmq/consumer.py:202-261 | while the one running loop handles or settles a message, `_current_raw_message` is that message |
| RabbitProtocol.OutcomeReachesBroker | packages/openframe-adapters-queue-rabbitmq/openframe/adapters/queue/rabbitmq/consumer.py:212-261 | in every run a returned handler's message is acknowledged and a raised one's is ready again as soon as the broker acts, unless its channel is gone; nothing else moves, and the loop goes on |
| RabbitProtocol.UndecodableIsNacked | packages/openframe-adapters-queue-rabbitmq/openframe/adapters/queue/rabbitmq/consumer.py:202-223 | in every run a message that does not decode is nacked unhandled and ready again as soon as the broker acts |
| RabbitProtocol.SessionDrains | packages/openframe-adapters-queue-rabbitmq/openframe/adapters/queue/rabbitmq/consumer.py:175-226 | from any idle state of any run, with any prefetch count and in any order of delivery, a session left alone has every ready message acknowledged |
| RabbitProtocol.DeliveredExactlyWithinPrefetch | packages/openframe-adapters-queue-rabbitmq/openframe/adapters/queue/rabbitmq/consumer.py:182-184 | in every run the broker pushes a ready message to a live session exactly while it holds fewer than the prefetch count, or the count is 0 |
| RabbitProtocol.LostChannelRequeues | packages/openframe-adapters-queue-rabbitmq/openframe/adapters/queue/rabbitmq/consumer.py:224-289 | when a channel goes, exactly what was out on it is ready again, and a settlement of it that arrives later changes nothing |
| RabbitProtocol.CloseStopsTaking | packages/openframe-adapters-queue-rabbitmq/openframe/adapters/queue/rabbitmq/consumer.py:200-201 | whatever happens after close() has begun, no message is taken until a session starts anew |
| RabbitProtocol.CloseForgets | packages/openframe-adapters-queue-rabbitmq/openframe/adapters/queue/rabbitmq/consumer.py:263-289 | a close() that finds a channel leaves none; one that finds none awaits nothing |
| RabbitProtocol.SessionEnds | packages/openframe-adapters-queue-rabbitmq/openframe/adapters/queue/rabbitmq/consumer.py:175-226 | every way out of a session, once the connection is closed, leaves a consumer that can subscribe again, with nothing left in the iterator's buffer |
| RabbitProtocol.SessionInterrupted | packages/openframe-adapters-queue-rabbitmq/openframe/adapters/queue/rabbitmq/consumer.py:224-226 | a cancellation while connecting or closing ends the session and leaves the fields; a crash forgets them and settles nothing |
| RabbitOverlap.SettlesOwnExactly | packages/openframe-adapters-queue-rabbitmq/openframe/adapters/queue/rabbitmq/consumer.py:202-261 | with any number of overlapping subscribe() loops, whatever channels go, loops end and processes die, a finished handler settles its own message exactly when no other loop has taken one since |
| RabbitOverlap.AcksHandledExactly | packages/openframe-adapters-queue-rabbitmq/openframe/adapters/queue/rabbitmq/consumer.py:202-244 | with any number of loops, every ack comes after its own message's handler returned exactly when no handler returns before the handler of the message taken last |
| RabbitOverlap.AckedAtBroker | packages/openframe-adapters-queue-rabbitmq/openframe/adapters/queue/rabbitmq/consumer.py:202-244 | a message acked at the broker has a delivery that was acked because some handler returned while it was the message taken last; without its own handler having returned only if handlers of other deliveries alone did so, and never if no handler returns before the handler of the message taken last |
| RabbitOverlap.Conservation | packages/openframe-adapters-queue-rabbitmq/openframe/adapters/queue/rabbitmq/consumer.py:202-261 | with any number of loops the published messages are still exactly ready, unacked or acked |
| RabbitOverlap.AckedWhileHandled | packages/openframe-adapters-queue-rabbitmq/openframe/adapters/queue/rabbitmq/consumer.py:240-244 | a run of two loops in which the broker acks a message whose handler is still running |
| RabbitOverlap.LoopSettlesLastTaken | packages/openframe-adapters-queue-rabbitmq/openframe/adapters/queue/rabbitmq/consumer.py:202-261 | in every run each finished handler leads to one settlement, of the message that some loop took last, and when the broker acts that message is acked or ready again while the other loops go on |
| RabbitOverlap.LoopTakes | packages/openframe-adapters-queue-rabbitmq/openframe/adapters/queue/rabbitmq/consumer.py:199-202 | a loop at its await takes any delivery that no loop has taken, and only once |
| RabbitOverlap.LoopsEnd | packages/openframe-adapters-queue-rabbitmq/openframe/adapters/queue/rabbitmq/consumer.py:224-289 | a loop that is left or a process that dies settles nothing, and exactly what was out on a channel that goes is ready again |
| RabbitProtocol.UnsettledComesBack | packages/openframe-adapters-queue-rabbitmq/openframe/adapters/queue/rabbitmq/consumer.py:224-289 | once all channels are gone everything that was not acked is ready again |
| RabbitmqConsumerModel.RabbitmqConsumer.Close | packages/openframe-adapters-queue-rabbitmq/openframe/adapters/queue/rabbitmq/consumer.py:263-289 | close() sets the flag and begins closing the channel |
| RabbitmqConsumerModel.RabbitmqConsumer.Body | packages/openframe-adapters-queue-rabbitmq/openframe/adapters/queue/rabbitmq/consumer.py:199-223 | one message up to its first await: the raw message is remembered before decoding, a failed decode is nacked |
| RabbitmqConsumerModel.RabbitmqConsumer.HandlerResumed | packages/openframe-adapters-queue-rabbitmq/openframe/adapters/queue/rabbitmq/consumer.py:212-223 | the outcome of the handler decides between ack and nack of the remembered message |
| RabbitmqConsumerModel.RabbitmqConsumer.FinallyBlock | packages/openframe-adapters-queue-rabbitmq/openframe/adapters/queue/rabbitmq/consumer.py:224-226 | the finally block closes channel and connection and clears the fields |
| RabbitmqConsumerModel.RabbitmqConsumer.Consume | packages/openframe-adapters-queue-rabbitmq/openframe/adapters/queue/rabbitmq/consumer.py:196-226 | the loop refines the protocol's run over any script of events |
| RabbitmqConsumerModel.RabbitmqConsumer.Subscribe | packages/openframe-adapters-queue-rabbitmq/openframe/adapters/queue/rabbitmq/consumer.py:175-226 | subscribe() as a whole refines the protocol |
| NatsProtocol.Conservation | packages/openframe-adapters-queue-nats/openframe/adapters/queue/nats/consumer.py:238-311 | over every run the published messages are exactly waiting, outstanding, acked or exhausted; no message leaves the stream any other way |
| NatsProtocol.AckedOnlyAfterItsHandlerReturned | packages/openframe-adapters-queue-nats/openframe/adapters/queue/nats/consumer.py:239-251 | an acked message has a delivery whose handler returned and was at once followed by the ack |
| NatsProtocol.ExhaustedExactly | packages/openframe-adapters-queue-nats/openframe/adapters/queue/nats/consumer.py:205-210 | a message that is not outstanding is exhausted exactly when it was delivered max_deliver times and no ack of any delivery was recorded |
| NatsProtocol.AttemptsBounded | packages/openframe-adapters-queue-nats/openframe/adapters/queue/nats/consumer.py:205-258 | the handler is given a message at most max_deliver times |
| NatsProtocol.OneSettlementPerDelivery | packages/openframe-adapters-queue-nats/openframe/adapters/queue/nats/consumer.py:242-258 | every finished handler call is followed at once by exactly one settlement of that delivery, ack if it returned and nak if it raised, and no settlement is sent otherwise |
| NatsProtocol.HandledMessageCanBeExhausted | packages/openframe-adapters-queue-nats/openframe/adapters/queue/nats/consumer.py:287-290 | a run in which a handled message is exhausted because its ack was lost |
| NatsProtocol.OutcomeReachesServer | packages/openframe-adapters-queue-nats/openframe/adapters/queue/nats/consumer.py:247-311 | in every run a returned handler's message is settled for good as soon as the server acts on the ack; a raised one's waits again as soon as it acts on the nak, or is exhausted when its max_deliver deliveries are used up |
| NatsProtocol.UndecodableIsNaked | packages/openframe-adapters-queue-nats/openframe/adapters/queue/nats/consumer.py:242-258 | in every run a message that does not decode is nakked unhandled and tried again or exhausted |
| NatsProtocol.UnsettledIsTriedAgain | packages/openframe-adapters-queue-nats/openframe/adapters/queue/nats/consumer.py:205-216 | a message nobody settles within ack_wait waits again or is exhausted, and a live session is given any message that waits |
| NatsProtocol.SessionDrains | packages/openframe-adapters-queue-nats/openframe/adapters/queue/nats/consumer.py:195-273 | from any idle state of any run and in any order of delivery, a session left alone has every waiting message acknowledged |
| NatsProtocol.CloseStopsTaking | packages/openframe-adapters-queue-nats/openframe/adapters/queue/nats/consumer.py:240-241 | whatever happens after close() has begun, no message is taken until a session starts anew |
| NatsProtocol.CloseForgets | packages/openframe-adapters-queue-nats/openframe/adapters/queue/nats/consumer.py:321-332 | a close() that finds a subscription or a connection leaves no connection, and leaves the subscription to the finally block |
| NatsProtocol.SessionEnds | packages/openframe-adapters-queue-nats/openframe/adapters/queue/nats/consumer.py:195-273 | every way out of a session, once torn down, leaves a consumer that can subscribe again, with nothing left in the subscription's buffer |
| NatsProtocol.SessionInterrupted | packages/openframe-adapters-queue-nats/openframe/adapters/queue/nats/consumer.py:259-273 | a cancellation while connecting or tearing down ends the session and leaves the fields; a crash forgets them and settles nothing |
| NatsConsumerModel.NatsConsumer.Close | packages/openframe-adapters-queue-nats/openframe/adapters/queue/nats/consumer.py:313-332 | close() sets the flag and begins tearing down subscription and connection |
| NatsConsumerModel.NatsConsumer.Body | packages/openframe-adapters-queue-nats/openframe/adapters/queue/nats/consumer.py:239-258 | one message up to its first await; a failed decode is nakked |
| NatsConsumerModel.NatsConsumer.HandlerResumed | packages/openframe-adapters-queue-nats/openframe/adapters/queue/nats/consumer.py:247-258 | the outcome of the handler decides between ack and nak of exactly that raw message |
| NatsConsumerModel.NatsConsumer.Consume | packages/openframe-adapters-queue-nats/openframe/adapters/queue/nats/consumer.py:238-273 | the loop refines the protocol's run over any script of events |
| NatsConsumerModel.NatsConsumer.Subscribe | packages/openframe-adapters-queue-nats/openframe/adapters/queue/nats/consumer.py:195-273 | subscribe() as a whole refines the protocol |
| ClientCache.PopThenCloseIsSafe | packages/openframe-adapters-db-redis/openframe/adapters/db/redis/connection.py:53-118 | with pop before close, in every interleaving of gets and closes and with any failing build or close: no cached client is closed, each was built from settings with exactly that key, and no get ever returned a closed client or another key's |
| ClientCache.LeaksExactly | packages/openframe-adapters-db-redis/openframe/adapters/db/redis/connection.py:73-118 | a client that nobody has begun to close is uncached exactly when a second build for its key, with no re-check after the await, overwrote its entry, or the get that made it failed (its first ping, say) before storing it |
| ClientCache.TwoGetsLeak | packages/openframe-adapters-db-redis/openframe/adapters/db/redis/connection.py:73-118 | a run of two gets that leaves the first client open and uncached |
| ClientCache.OneGetLeaks | packages/openframe-adapters-db-redis/openframe/adapters/db/redis/connection.py:86-95 | in either order, a run of one get whose client was made before its await failed, and is left open and uncached |
| ClientCache.CloseThenPopStaleExactly | packages/openframe-adapters-db-postgres/openframe/adapters/db/postgres/repository.py:400-404 | with close before pop, a cached client is closed exactly while its close is suspended or after its close failed |
| ClientCache.LatePopDropsExactly | packages/openframe-adapters-db-postgres/openframe/adapters/db/postgres/repository.py:400-404 | in every run, the late pop of a suspended close drops an open client exactly when the key meanwhile holds another client that nobody has begun to close |
| ClientCache.LateLeaksExactly | packages/openframe-adapters-db-cassandra/openframe/adapters/db/cassandra/connection.py:214-262 | with close before pop, a client that nobody has begun to close is uncached exactly when a second build overwrote its entry, a late pop dropped it, or the get that made it failed, as when a session is finished after the get's timeout |
| ClientCache.GetDuringCloseIsStale | packages/openframe-adapters-db-postgres/openframe/adapters/db/postgres/repository.py:400-404 | a run of the close-then-pop order in which get returns a closed client |
| ClientCache.ClosePopsAnotherClient | packages/openframe-adapters-db-postgres/openframe/adapters/db/postgres/repository.py:400-404 | a run in which the late pop drops an open client that a slower build stored |
| ClientCache.GetServes | packages/openframe-adapters-db-redis/openframe/adapters/db/redis/connection.py:73-118 | in every run and either order a get of a cached key returns the cached client; one that misses ends with a new, open client cached under its key and returned, or, when the build fails, with nothing cached or returned |
| ClientCache.LateBuildStores | packages/openframe-adapters-db-redis/openframe/adapters/db/redis/connection.py:86-118 | in every run a build that was overtaken by others stores and returns its own client, over whatever the key holds by then |
| ClientCache.PopThenCloseTakesEffect | packages/openframe-adapters-db-redis/openframe/adapters/db/redis/repository.py:398-400 | in every run a close of a cached key closes its client and removes that entry and no other at once, and a get that follows ends with a new, open client; the end or failure of the close does not touch the cache |
| ClientCache.CloseThenPopTakesEffect | packages/openframe-adapters-db-postgres/openframe/adapters/db/postgres/repository.py:400-404 | in every run of the other order the client is closed at once and its entry stays until the close returns; a get before that returns the closed client, and a close that fails leaves the entry |
| ClientCache.CloseOfNothing | packages/openframe-adapters-db-redis/openframe/adapters/db/redis/repository.py:398-400 | a close of a key that is not cached does nothing |
| ClientCacheModel.AsyncCache.Get | packages/openframe-adapters-db-redis/openframe/adapters/db/redis/connection.py:73-87 | the look-up: a hit is returned, a miss suspends the task on its build |
| ClientCacheModel.AsyncCache.BuildReturned | packages/openframe-adapters-db-redis/openframe/adapters/db/redis/connection.py:86-118 | after the await the new client is stored without looking again |
| ClientCacheModel.AsyncCache.BuildFailed | packages/openframe-adapters-db-redis/openframe/adapters/db/redis/connection.py:88-116 | when the await raises the cache is left alone, and a client made before is forgotten without being closed |
| ClientCacheModel.AsyncCache.Close | packages/openframe-adapters-db-redis/openframe/adapters/db/redis/repository.py:398-400 | close up to its await, popping first or not |
| ClientCacheModel.AsyncCache.CloseReturned | packages/openframe-adapters-db-oracle/openframe/adapters/db/oracle/repository.py:535-539 | close after its await: in the other order the key is popped only now, whatever it holds |
| ClientCacheModel.AsyncCache.Loop | packages/openframe-adapters-db-redis/openframe/adapters/db/redis/connection.py:73-118 | any interleaving of the segments of gets and closes leaves exactly the state of the state machine's run |
| ConnectionKeys.RedisServesOwnSettings | packages/openframe-adapters-db-redis/openframe/adapters/db/redis/connection.py:35-118 | in every interleaving the Redis client a get returns is open and was connected with the caller's own arguments: equal keys imply equal connect arguments |
| ConnectionKeys.RedisKeyIsExact | packages/openframe-adapters-db-redis/openframe/adapters/db/redis/connection.py:35-84 | two Redis settings share a key exactly when their connect arguments are equal |
| ConnectionKeys.DynamoKeyIsExact | packages/openframe-adapters-db-dynamodb/openframe/adapters/db/dynamodb/connection.py:108-195 | two DynamoDB settings share a key exactly when they open the same table through the same resource arguments |
| ConnectionKeys.DynamoServesOwnSettings | packages/openframe-adapters-db-dynamodb/openframe/adapters/db/dynamodb/connection.py:108-211 | in every interleaving the DynamoDB table a get returns was opened with the caller's own arguments and is not closed |
| ConnectionKeys.MongoKeyIsExact | packages/openframe-adapters-db-mongo/openframe/adapters/db/mongo/connection.py:47-96 | two MongoDB settings share a key exactly when their client arguments are equal and the certificate flag is the same even where it is unused |
| MongoClientCacheModel.AlwaysMatched | packages/openframe-adapters-db-mongo/openframe/adapters/db/mongo/connection.py:59-106 | after any calls the open clients are exactly the cached ones, each under its own key |
| MongoClientCacheModel.NoLeakNoDuplicate | packages/openframe-adapters-db-mongo/openframe/adapters/db/mongo/repository.py:402-412 | at most one client per key is open, and none is open without being cached |
| MongoClientCacheModel.GetAndCloseTakeEffect | packages/openframe-adapters-db-mongo/openframe/adapters/db/mongo/repository.py:402-412 | after any calls a get leaves an open client cached, the old one or a new one; a close leaves the key without a client and the one it had closed, so that the next get makes a new one |
| MongoClientCacheModel.MongoClientCache.GetMongoClient | packages/openframe-adapters-db-mongo/openframe/adapters/db/mongo/connection.py:59-106 | the client returned is open and was built with the caller's arguments; an invalid URL is an error only on a miss |
| MongoClientCacheModel.MongoClientCache.Close | packages/openframe-adapters-db-mongo/openframe/adapters/db/mongo/repository.py:402-412 | close pops and closes in one step |
| CassandraBridge.SettledAtMostOnce | packages/openframe-adapters-db-cassandra/openframe/adapters/db/cassandra/connection.py:263-304 | in every interleaving of reactor, loop and cancellations the future is settled at most once, only with the driver's first report, and never after a cancellation |
| CassandraBridge.DecidedForever | packages/openframe-adapters-db-cassandra/openframe/adapters/db/cassandra/connection.py:289-304 | once settled or cancelled the future never changes again, nor does the result of `_execute`; late callbacks do nothing |
| CassandraBridge.ExecuteOutcome | packages/openframe-adapters-db-cassandra/openframe/adapters/db/cassandra/repository.py:248-271 | exactly when `_execute` returns the rows, wraps the driver's error, raises the timeout error or is cancelled: a cancellation by the caller wins over the timeout, which wins over the driver's first report |
| CassandraBridge.EachEndsTheCall | packages/openframe-adapters-db-cassandra/openframe/adapters/db/cassandra/repository.py:255-271 | in every run a waiting call is ended by a cancellation, by the timeout, or by the first report that comes before both |
| CassandraBridge.LateReportIsDropped | packages/openframe-adapters-db-cassandra/openframe/adapters/db/cassandra/connection.py:289-295 | a callback that runs after the future is done only leaves the loop's queue |
| CassandraBridge.ExecuteFinishes | packages/openframe-adapters-db-cassandra/openframe/adapters/db/cassandra/repository.py:255-271 | after a report, a timeout or a cancellation one loop turn and one resumption finish the call |
| CassandraBridge.SuccessCanBeReportedAsTimeout | packages/openframe-adapters-db-cassandra/openframe/adapters/db/cassandra/repository.py:257-267 | a run in which a query that succeeded is reported as timed out |
| CassandraBridgeModel.Bridge.OnReport | packages/openframe-adapters-db-cassandra/openframe/adapters/db/cassandra/connection.py:297-304 | the driver's thread only queues a callback; it never touches the future |
| CassandraBridgeModel.Bridge.RunCallback | packages/openframe-adapters-db-cassandra/openframe/adapters/db/cassandra/connection.py:289-295 | the loop settles the future unless it is done |
| CassandraBridgeModel.Bridge.ResumeTask | packages/openframe-adapters-db-cassandra/openframe/adapters/db/cassandra/repository.py:257-271 | the except clauses: timeout, cancellation, wrapped error or result |
| SqlText.LexCut | packages/openframe-adapters-db-postgres/openframe/adapters/db/postgres/repository.py:281-284 | scanning a text is scanning its pieces when it is cut beside a separator, for all three placeholder styles |
| SqlText.LexHole | packages/openframe-adapters-db-oracle/openframe/adapters/db/oracle/repository.py:390-390 | every placeholder, multi-digit numerals included, is scanned as its own number or as the next positional one |
| SqlText.InsertRoundTrip | packages/openframe-adapters-db-postgres/openframe/adapters/db/postgres/repository.py:276-284 | an INSERT text means: these columns in this order take values 1 to n in this order; exactly when table and columns are names and, except for MySQL, there is a column |
| SqlText.UpdateRoundTrip | packages/openframe-adapters-db-postgres/openframe/adapters/db/postgres/repository.py:330-339 | an UPDATE text means: set these columns in this order to values 1 to n, where the id is value n+1, each placeholder used once; exactly when table, columns and id column are names and there is a column to set |
| SqlText.SelectRoundTrip | packages/openframe-adapters-db-postgres/openframe/adapters/db/postgres/repository.py:193-196 | the texts of get and delete look for value 1 in the id column, exactly when table and id column are names |
| SqlText.DialectsAgree | packages/openframe-adapters-db-mysql/openframe/adapters/db/mysql/repository.py:390-393 | the numbered and positional texts of all four dialects mean the same statement, apart from Postgres also asking for the rows back |
| SqlServer.SelectMeaning | packages/openframe-adapters-db-postgres/openframe/adapters/db/postgres/repository.py:193-212 | selecting by key is a look-up in the finite map from id to row; a NULL id finds nothing |
| SqlServer.InsertMeaning | packages/openframe-adapters-db-postgres/openframe/adapters/db/postgres/repository.py:281-298 | appending a row with a free key adds that entry to the map and changes nothing else |
| SqlServer.UpdateMeaning | packages/openframe-adapters-db-postgres/openframe/adapters/db/postgres/repository.py:335-355 | setting non-key columns where the key matches merges them into one row, leaving its other columns and all other rows alone |
| SqlServer.DeleteMeaning | packages/openframe-adapters-db-postgres/openframe/adapters/db/postgres/repository.py:372-387 | deleting by key removes that entry and nothing else |
| SqlServer.ExecKeeps | packages/openframe-adapters-db-postgres/openframe/adapters/db/postgres/repository.py:275-298 | no statement that runs breaks the primary key or the schema; an UPDATE that would break it is refused by the server as modelled |
| SqlStatements.BindMeaning | packages/openframe-adapters-db-postgres/openframe/adapters/db/postgres/repository.py:276-284 | numbering the columns 1 to n and sending the values in dict order binds every column to its own value |
| SqlStatements.ChangesMeaning | packages/openframe-adapters-db-postgres/openframe/adapters/db/postgres/repository.py:319-321 | the comprehension keeps exactly the non-id items |
| SqlStatements.CursorRowMeaning | packages/openframe-adapters-db-oracle/openframe/adapters/db/oracle/repository.py:199-207 | a cursor row zipped with the description is the stored row, in any column order |
| SqlStatements.InsertServed | packages/openframe-adapters-db-oracle/openframe/adapters/db/oracle/repository.py:387-402 | the INSERT text with the dict's values inserts exactly the dict over the defaults, or is refused: unknown column, NULL key or taken key |
| SqlStatements.UpdateServed | packages/openframe-adapters-db-mysql/openframe/adapters/db/mysql/repository.py:390-399 | the UPDATE text with its values merges the dict's non-id columns into the row with that id, if there is one |
| SqlStatements.LookupServed | packages/openframe-adapters-db-mysql/openframe/adapters/db/mysql/repository.py:238-246 | the SELECT and DELETE texts read and remove the entry of that id |
| SqlStatements.InsertThenSelect | packages/openframe-adapters-db-postgres/openframe/adapters/db/postgres/repository.py:275-298 | an INSERT is refused exactly for an unknown column, an id that is NULL or taken, or an empty dict outside MySQL; the get that follows finds each item of the dict and the defaults elsewhere, and gets of other ids find what they found |
| SqlStatements.UpdateThenSelect | packages/openframe-adapters-db-postgres/openframe/adapters/db/postgres/repository.py:319-355 | an UPDATE is refused exactly for an unknown column; the get that follows finds each item of the dict and the old values elsewhere if there was a row, and gets of other ids find what they found |
| SqlStatements.DeleteThenSelect | packages/openframe-adapters-db-postgres/openframe/adapters/db/postgres/repository.py:372-387 | the get that follows a DELETE finds nothing, and gets of other ids find what they found |
| SqlStatements.ServedKeeps | packages/openframe-adapters-db-postgres/openframe/adapters/db/postgres/repository.py:287-289 | whatever text and values are sent, the table stays keyed |
| SqlRepositoryModel.SqlRepository.Get | packages/openframe-adapters-db-oracle/openframe/adapters/db/oracle/repository.py:289-312 | get is a look-up of the id |
| SqlRepositoryModel.SqlRepository.Create | packages/openframe-adapters-db-mysql/openframe/adapters/db/mysql/repository.py:331-357 | create adds exactly one row or fails and changes nothing; Postgres, Oracle and MySQL return the stored row whenever the id was given, and what Oracle and MySQL return without it; with keys that are no names the table at least stays keyed |
| SqlRepositoryModel.SqlRepository.Update | packages/openframe-adapters-db-oracle/openframe/adapters/db/oracle/repository.py:439-484 | update merges the non-id columns into the row with that id and returns it, None if there is none (or, for MySQL, if only changed rows are counted and nothing changed), and fails before any statement without other columns |
| SqlRepositoryModel.SqlRepository.Delete | packages/openframe-adapters-db-oracle/openframe/adapters/db/oracle/repository.py:501-522 | delete removes the row with that id and tells whether there was one |
| CassandraRepositoryModel.InsertUpserts | packages/openframe-adapters-db-cassandra/openframe/adapters/db/cassandra/repository.py:364-371 | a Cassandra INSERT that names its key never fails on a taken id: it creates the row or writes over it |
| CassandraRepositoryModel.UpdateUpserts | packages/openframe-adapters-db-cassandra/openframe/adapters/db/cassandra/repository.py:419-422 | a Cassandra UPDATE writes the row whether or not it exists |
| CassandraRepositoryModel.CqlKeeps | packages/openframe-adapters-db-cassandra/openframe/adapters/db/cassandra/repository.py:364-371 | whatever text and values are sent, the table stays keyed |
| CassandraRepositoryModel.InsertThenRead | packages/openframe-adapters-db-cassandra/openframe/adapters/db/cassandra/repository.py:343-371 | at Cassandra an INSERT is refused exactly for an unknown column or a missing id; the get that follows finds each item of the dict, and elsewhere the old values of a row that was there or NULL |
| CassandraRepositoryModel.UpdateThenRead | packages/openframe-adapters-db-cassandra/openframe/adapters/db/cassandra/repository.py:373-423 | at Cassandra so does an UPDATE, whether or not there is a row |
| CassandraRepositoryModel.DeleteThenRead | packages/openframe-adapters-db-cassandra/openframe/adapters/db/cassandra/repository.py:425-459 | at Cassandra the get that follows a DELETE finds nothing, and gets of other ids find what they found |
| CassandraRepositoryModel.CassandraRepository.Get | packages/openframe-adapters-db-cassandra/openframe/adapters/db/cassandra/repository.py:292-297 | get by id; a None id is an error |
| CassandraRepositoryModel.CassandraRepository.Create | packages/openframe-adapters-db-cassandra/openframe/adapters/db/cassandra/repository.py:364-371 | create returns the entity as submitted and merges into an existing row |
| CassandraRepositoryModel.CassandraRepository.Update | packages/openframe-adapters-db-cassandra/openframe/adapters/db/cassandra/repository.py:403-423 | check then write: None and no write when the check finds no row, and exactly what the upsert makes of the table that other clients left in between |
| CassandraRepositoryModel.CassandraRepository.Delete | packages/openframe-adapters-db-cassandra/openframe/adapters/db/cassandra/repository.py:449-455 | check then delete, with other clients in between |
| RedisProtocol.NoSharedKeys | packages/openframe-adapters-db-redis/openframe/adapters/db/redis/repository.py:97-99 | two repositories share no key exactly when neither `prefix:` string is a prefix of the other |
| RedisProtocol.StepRefines | packages/openframe-adapters-db-redis/openframe/adapters/db/redis/repository.py:161-385 | each call, timeout or expiry moves and answers as a finite map from id to entity; events of unrelated repositories change nothing |
| RedisProtocol.RunRefines | packages/openframe-adapters-db-redis/openframe/adapters/db/redis/repository.py:161-385 | under every interleaving of callers, repositories, timeouts and expiries a repository is that finite map |
| RedisProtocol.ExistsExactly | packages/openframe-adapters-db-redis/openframe/adapters/db/redis/repository.py:254-385 | a key exists exactly when a create that reached the server was not followed by a delete or an expiry; updates neither add nor revive |
| RedisProtocol.CreateNeverOverwrites | packages/openframe-adapters-db-redis/openframe/adapters/db/redis/repository.py:276-308 | a create of an existing id changes nothing, and one that succeeds follows a removal of every earlier create |
| RedisProtocol.UpdateNeverRevives | packages/openframe-adapters-db-redis/openframe/adapters/db/redis/repository.py:329-352 | an update adds no key, and one that succeeds follows a create with no removal in between |
| RedisProtocol.UpdateWithoutId | packages/openframe-adapters-db-redis/openframe/adapters/db/redis/repository.py:276-285 | create rejects an empty id, so an update without an id changes nothing and returns None, exactly unless a repository whose `prefix:` is a proper prefix of this one's created an entity with just that key |
| RedisProtocol.UpdateWithoutIdCanFind | packages/openframe-adapters-db-redis/openframe/adapters/db/redis/repository.py:329-335 | a run in which an update without an id finds such an entity |
| RedisProtocol.LastWriteWins | packages/openframe-adapters-db-redis/openframe/adapters/db/redis/repository.py:283-352 | over every run a key that is there holds the entity of the last create that found it absent or update that found it, whether or not its caller was answered in time |
| RedisProtocol.ReplyIsNextGet | packages/openframe-adapters-db-redis/openframe/adapters/db/redis/repository.py:161-385 | an entity in a reply is what the next get answers; create succeeds exactly when a get would have found nothing, update exactly when it would have found something, and delete tells which |
| RedisProtocol.LateReplyFails | packages/openframe-adapters-db-redis/openframe/adapters/db/redis/repository.py:161-385 | a call not answered in time fails for its caller, and was carried out wholly or not at all; a create without an id is refused before |
| RedisOrder.SortAscends | packages/openframe-adapters-db-redis/openframe/adapters/db/redis/repository.py:229-229 | sorting gives the same keys in ascending order |
| RedisOrder.SortPrefixed | packages/openframe-adapters-db-redis/openframe/adapters/db/redis/repository.py:97-99 | sorting prefixed keys is sorting ids |
| RedisOrder.GlobIsPrefix | packages/openframe-adapters-db-redis/openframe/adapters/db/redis/repository.py:221-226 | the MATCH pattern of a plain prefix matches exactly the keys that begin with `prefix:` |
| RedisListing.PagesListEverything | packages/openframe-adapters-db-redis/openframe/adapters/db/redis/repository.py:221-252 | with a limit above zero the pages one after the other are every entity exactly once, in id order |
| RedisListing.LookupsSkipExactly | packages/openframe-adapters-db-redis/openframe/adapters/db/redis/repository.py:230-252 | a page has one entity for each of its ids that is still there, in their order, and nothing for an id that is gone before MGET |
| RedisRepositoryModel.KeysInOrder | packages/openframe-adapters-db-redis/openframe/adapters/db/redis/repository.py:221-230 | the sorted keys under a prefix are the repository's ids in order, prefixed, and as many |
| RedisRepositoryModel.RedisRepository.Get | packages/openframe-adapters-db-redis/openframe/adapters/db/redis/repository.py:179-197 | get sends GET for the prefixed key |
| RedisRepositoryModel.RedisRepository.Create | packages/openframe-adapters-db-redis/openframe/adapters/db/redis/repository.py:274-308 | create rejects an empty id before any command and uses SET NX |
| RedisRepositoryModel.RedisRepository.Update | packages/openframe-adapters-db-redis/openframe/adapters/db/redis/repository.py:329-352 | update uses SET XX and returns None when the key is missing |
| RedisRepositoryModel.RedisRepository.Delete | packages/openframe-adapters-db-redis/openframe/adapters/db/redis/repository.py:369-385 | delete tells whether the key existed |
| RedisRepositoryModel.RedisRepository.List | packages/openframe-adapters-db-redis/openframe/adapters/db/redis/repository.py:220-252 | whatever SCAN yields: the total is its length, and the page is the slice of the sorted keys looked up in the keyspace at MGET, skipping those gone since; for a prefix without glob characters and a SCAN of every matching key once, these are the repository's own entities in id order |
| Slicing.PagesAreAPrefix | packages/openframe-adapters-db-redis/openframe/adapters/db/redis/repository.py:230-230 | consecutive slices of one size are a prefix, each item once and in order |
| Slicing.SliceMeaning | packages/openframe-adapters-db-dynamodb/openframe/adapters/db/dynamodb/repository.py:339-339 | a slice within the bounds is the stretch between them; bounds past an end and negative bounds mean what they mean in Python |
| Paging.EarlyStopIsExact | packages/openframe-adapters-db-dynamodb/openframe/adapters/db/dynamodb/repository.py:308-338 | for every split into pages, empty ones included, stopping early loses nothing of the page |
| Paging.EarlyStopExactly | packages/openframe-adapters-db-dynamodb/openframe/adapters/db/dynamodb/repository.py:309-318 | for which limit and offset, negatives included, the early stop never shows |
| DynamoRepositoryModel.DynamoRepository.List | packages/openframe-adapters-db-dynamodb/openframe/adapters/db/dynamodb/repository.py:306-341 | both loops end; the page is the slice of the whole table, the count is the size of the table, and no page is read beyond the first that makes enough items |
| DynamoRepositoryModel.DynamoRepository.Create | packages/openframe-adapters-db-dynamodb/openframe/adapters/db/dynamodb/repository.py:364-379 | create is an unconditional put: a taken id is written over |
| DynamoRepositoryModel.DynamoRepository.Update | packages/openframe-adapters-db-dynamodb/openframe/adapters/db/dynamodb/repository.py:404-428 | update never adds an id, replaces the whole item, and returns None for a missing one |
| DynamoRepositoryModel.DynamoRepository.Delete | packages/openframe-adapters-db-dynamodb/openframe/adapters/db/dynamodb/repository.py:446-463 | delete tells whether there was an item |
| DynamoRepositoryModel.DynamoRepository.ScanItems | packages/openframe-adapters-db-dynamodb/openframe/adapters/db/dynamodb/repository.py:309-318 | the first loop ends with the items at hand when there are first enough, or all |
| DynamoRepositoryModel.DynamoRepository.CountItems | packages/openframe-adapters-db-dynamodb/openframe/adapters/db/dynamodb/repository.py:320-328 | the second loop counts every item |
| CassandraListing.List | packages/openframe-adapters-db-cassandra/openframe/adapters/db/cassandra/repository.py:323-333 | fetch then slice is the slice of the table for offsets from zero; limit + offset of zero or less is an error |
| CassandraListing.FetchExactly | packages/openframe-adapters-db-cassandra/openframe/adapters/db/cassandra/repository.py:326-331 | fetching first and slicing then agrees with slicing the table, for every table, exactly for offsets from zero |
| MongoIds.NormaliseAgain | packages/openframe-adapters-db-mongo/openframe/adapters/db/mongo/repository.py:132-143 | canonicalising an id is idempotent through its string form |
| MongoIds.NormaliseMeets | packages/openframe-adapters-db-mongo/openframe/adapters/db/mongo/repository.py:132-143 | two ids meet exactly when equal or the same 24 hex digits up to case |
| MongoStore.CreateThenGet | packages/openframe-adapters-db-mongo/openframe/adapters/db/mongo/repository.py:308-324 | a dict with id and no _id: once created it is found by the original id and by the returned _id, its other fields intact, other documents untouched; a taken id is an error |
| MongoStore.CreateWithOwnId | packages/openframe-adapters-db-mongo/openframe/adapters/db/mongo/repository.py:308-324 | a dict that brings its own _id is stored as it is, and found again exactly when its string normalises to that very _id: not a number, not a string of 24 hex digits |
| MongoStore.CreateWithoutId | packages/openframe-adapters-db-mongo/openframe/adapters/db/mongo/repository.py:308-324 | a dict without any id is found by the digits of the generated ObjectId, its fields intact |
| MongoStore.UpdateWrites | packages/openframe-adapters-db-mongo/openframe/adapters/db/mongo/repository.py:346-370 | an update answers what the next get of its id answers: the entity's fields with the entity's values, the others as they were, _id as it was, id written only when the entity went by _id; no get of another id changes |
| MongoStore.UpdateRefused | packages/openframe-adapters-db-mongo/openframe/adapters/db/mongo/repository.py:349-355 | an error exactly for an entity without a truthy _id and without an id, None exactly when get finds nothing; neither changes the collection |
| MongoStore.UpdateWithWhatGetReturned | packages/openframe-adapters-db-mongo/openframe/adapters/db/mongo/repository.py:346-370 | updating with what get returned changes no later get of any id, exactly unless the id is empty, the document has another id field, and the document with that id would look different |
| MongoStore.UpdateKeepsOwnGet | packages/openframe-adapters-db-mongo/openframe/adapters/db/mongo/repository.py:349-349 | whatever the id, updating with what get returned leaves the next get of that document unchanged |
| MongoStore.UpdateGivesBackExactly | packages/openframe-adapters-db-mongo/openframe/adapters/db/mongo/repository.py:346-370 | the same document comes back exactly when its id is not empty, or it has no id field of its own, or that field too stands for the empty id |
| MongoStore.UpdateOfEmptyIdHitsAnother | packages/openframe-adapters-db-mongo/openframe/adapters/db/mongo/repository.py:349-349 | a store in which the `or` picks another document, which is then changed |
| MongoRepositoryModel.MongoRepository.SerialiseDoc | packages/openframe-adapters-db-mongo/openframe/adapters/db/mongo/repository.py:145-158 | a fresh dict with _id as a string, mirrored under id unless the document has one |
| MongoRepositoryModel.MongoRepository.Get | packages/openframe-adapters-db-mongo/openframe/adapters/db/mongo/repository.py:240-252 | get by normalised id |
| MongoRepositoryModel.MongoRepository.Create | packages/openframe-adapters-db-mongo/openframe/adapters/db/mongo/repository.py:308-324 | create on a copy: the caller's dict is not in the frame and never modified, even though the driver writes into the dict it is given |
| MongoRepositoryModel.MongoRepository.Update | packages/openframe-adapters-db-mongo/openframe/adapters/db/mongo/repository.py:346-370 | update pops the ids from a copy and merges the rest; the caller's dict is never modified |
| MongoRepositoryModel.MongoRepository.Delete | packages/openframe-adapters-db-mongo/openframe/adapters/db/mongo/repository.py:387-396 | delete by normalised id tells whether there was a document |
| ChromaColumns.RowsRoundTrip | packages/openframe-adapters-db-chromadb/openframe/adapters/db/chromadb/repository.py:206-223 | rows to parallel columns and back is the identity exactly when the columns asked for cover the rows |
| ChromaColumns.ColumnsRoundTrip | packages/openframe-adapters-db-chromadb/openframe/adapters/db/chromadb/repository.py:206-223 | columns to rows and back gives the same columns, for metadata that are None or not empty |
| ChromaColumns.ExtraIsIgnored | packages/openframe-adapters-db-chromadb/openframe/adapters/db/chromadb/repository.py:206-223 | what a column has beyond the ids does not show in the rows, and without ids there are none |
| ChromaColumns.QueryRoundTrip | packages/openframe-adapters-db-chromadb/openframe/adapters/db/chromadb/repository.py:225-249 | rows to columns to the answer of a query of any number of embeddings and back is the identity on the first one; no ids, or an empty outer list of them, make no rows |
| ChromaRepositoryModel.ChromaRepository.GetResultToRows | packages/openframe-adapters-db-chromadb/openframe/adapters/db/chromadb/repository.py:206-223 | the loop is the transposition, with optional columns, and raises IndexError exactly when a column is shorter than the ids |
| ChromaRepositoryModel.ChromaRepository.QueryResultToRows | packages/openframe-adapters-db-chromadb/openframe/adapters/db/chromadb/repository.py:225-249 | the query form is the get form on the first inner lists, no rows when there are none, and IndexError exactly for an empty outer list or a column that is too short |
| ChromaRepositoryModel.ChromaRepository.Create | packages/openframe-adapters-db-chromadb/openframe/adapters/db/chromadb/repository.py:421-451 | create adds exactly the entity's row, empty metadata going through None, and writes over nothing |
| ChromaRepositoryModel.ChromaRepository.Get | packages/openframe-adapters-db-chromadb/openframe/adapters/db/chromadb/repository.py:341-360 | get returns the row with that id, or None |
| ChromaRepositoryModel.ChromaRepository.List | packages/openframe-adapters-db-chromadb/openframe/adapters/db/chromadb/repository.py:378-399 | list returns the rows of the server's page and the total |
| ChromaRepositoryModel.ChromaRepository.CreateThenGet | packages/openframe-adapters-db-chromadb/openframe/adapters/db/chromadb/repository.py:341-451 | create then get gives the entity back, missing metadata as {} |
| ChecklistVersions.VersionRoundTrip | scripts/check_adapter_checklist.py:130-134 | printing a version and parsing it, with any suffix that is no digit, gives the same triple |
| ChecklistVersions.VersionReads | scripts/check_adapter_checklist.py:131-134 | three dotted runs of digits, leading zeros included, are read as their values, or as (0, 0, 0) when one is empty |
| ChecklistVersions.NoVersion | scripts/check_adapter_checklist.py:131-133 | any text not read as (0, 0, 0) starts with three dotted numbers |
| ChecklistPins.PaddedReads | scripts/check_adapter_checklist.py:368-368 | padding any text of digits and dots with zeros and parsing it gives the first three components of its release, and 0 for one such as `1.` |
| ChecklistPins.TripleOrder | scripts/check_adapter_checklist.py:371-371 | a triple is below a release exactly when it is below its first three components as a tuple, or equal to them with something nonzero after |
| ChecklistPins.PinDecides | scripts/check_adapter_checklist.py:365-371 | the whole check on any requirement text: no finding without a range, ValueError for a ceiling that begins with a dot, and otherwise the comparison of the version with the two releases |
| ChecklistPins.FindsLeftmost | scripts/check_adapter_checklist.py:365-365 | the bounds are those of the leftmost place that matches, and there are none when no place does |
| ChecklistPins.PinMatches | scripts/check_adapter_checklist.py:365-367 | both bounds are found whatever blanks stand between the parts of the range |
| ChecklistPins.MatchesExactlyPins | scripts/check_adapter_checklist.py:365-366 | the pattern matches exactly the texts that start with a floor, a comma and a ceiling, with any blanks between, and gives exactly these bounds |
| ChecklistPins.NoRangeExactly | scripts/check_adapter_checklist.py:365-366 | the check reports nothing for want of a range exactly when no place of the requirement starts one |
| ChecklistPins.PinFound | scripts/check_adapter_checklist.py:365-367 | behind a name without `>` the range is found |
| ChecklistPins.SplitJoins | scripts/check_adapter_checklist.py:369-369 | splitting a bound at its dots loses nothing |
| ChecklistPins.PinSoundExactly | scripts/check_adapter_checklist.py:368-371 | every version that passes is within its pin, exactly when the floor has no nonzero fourth component or nothing passes at all |
| ChecklistPins.PinExactly | scripts/check_adapter_checklist.py:368-371 | for every floor and ceiling: passing is floor <= version < ceiling for every version exactly when the ceiling is a bare major and the floor has no nonzero fourth component, or no version is within the pin |
| ChecklistPins.PinWitness | scripts/check_adapter_checklist.py:369-371 | for every other floor and ceiling, a version on which the check and PEP 440 differ |
| ChecklistPins.PortFloorDecides | scripts/check_adapter_checklist.py:474-486 | for every floor text the triple-versus-pair comparison is the comparison of major and minor, and PEP 440's order of the releases |
| ChecklistYaml.LinesRoundTrip | scripts/check_adapter_checklist.py:143-143 | lines are split back whatever their line ends, a last line without one included, provided no carriage return stands before an empty line that ends in a line feed |
| ChecklistYaml.LinesRoundTripExactly | scripts/check_adapter_checklist.py:143-143 | lines with line ends are split back exactly when none holds a line end and no carriage return stands before an empty line that ends in a line feed |
| ChecklistYaml.ExtractYamlList | scripts/check_adapter_checklist.py:137-155 | the two loops compute the items after the first anchor line, up to the first other line |
| ChecklistYaml.ItemReadsBackExactly | scripts/check_adapter_checklist.py:150-152 | a rendered item is read back exactly when its text has no quote at an end and, unquoted, is not empty and has no blank at an end |
| ChecklistYaml.NoAnchorNoItems | scripts/check_adapter_checklist.py:144-147 | without a line that strips to the anchor there are no items |
| ChecklistYaml.ExtractionUndoesRendering | scripts/check_adapter_checklist.py:137-155 | for any such items, any blanks, quotes, comments, blank lines, line ends and lines before the anchor, extraction of the rendered text is exactly the items in order, up to the first other line, when its lines can be told apart |

## Left out

- Real drivers, sockets, JSON encoding, trace headers, logging, settings classes, `health()`, plugin wrappers and the `_wrap_*` exception classifiers: library behaviour or flat tables.
- Other adapters (MariaDB, CockroachDB, Milvus, Qdrant, InfluxDB, FalkorDB): near copies of the modelled ones or mostly server behaviour.
- RedisRepositoryModel.RedisRepository.List: the statement about the repository's own entities is for a prefix without glob characters and a SCAN that yields each key once; with such characters the pattern also matches other keys.
- SqlRepositoryModel.SqlRepository.Create: for a table whose only constraint is its primary key; a server may refuse more. For keys that are no plain identifiers the text is another statement, and only the table's key is promised to survive.
- SqlText.DialectsAgree: for names that are names, which by the round trips is exactly when the text is the intended statement.
- SqlStatements.InsertServed: for names that are names, which by the round trips is exactly when the text is the intended statement.
- SqlStatements.UpdateServed: for names that are names, which by the round trips is exactly when the text is the intended statement.
- SqlStatements.LookupServed: for names that are names, which by the round trips is exactly when the text is the intended statement.
- SqlRepositoryModel.SqlRepository.Update: whether MySQL counts matched or changed rows depends on a driver flag that the repository does not set, so it is an argument; both cases are stated.
- MongoStore.CreateThenGet: for dicts that carry `id` and no `_id`; MongoStore.CreateWithOwnId and MongoStore.CreateWithoutId say what becomes of the others.
- RabbitProtocol.CurrentIsTheMessageInHand: for one loop at a time; what several overlapping loops do to the shared field is RabbitOverlap, which admits more behaviour than the loops have (any loop may take any delivered message, beyond the prefetch count).
- Manual calls of `ack()` and `nack()`, and overlapping `subscribe()` calls on one Kafka or NATS consumer: the loop's own calls are modelled.
- Kafka: other members of the consumer group and rebalancing, `latest` as the start of a first session, retention, and a commit that the broker applies after `ack()` has given up on it.
- RabbitMQ: the awaits that set up connection, channel and queue are one step, the iterator's own close is the channel going away, and dead-lettering is not modelled.
- NATS: the deliver policy `new`, stream retention limits, and the awaits of setup, which are one step.
- The several awaits inside `close()` and inside the `finally` blocks are one step each.
- Cassandra's cache key: it does not contain the password, so nothing is claimed about equal keys and equal connect arguments; the Postgres, MySQL and Oracle keys are not modelled either, only their order of closing.
- Caches: a build is one await, whose failure says whether a client was made; a client made by another thread after the failure counts as made by it. Open means that nobody has begun to close the client, so one whose close raised counts as closed.
- SQL names are plain identifiers of letters, digits and underscores, for tables also qualified by dots: quoting, reserved words and the case folding of unquoted names, which shows in Oracle's cursor description, are not modelled.
- SQL tables: constraints other than the primary key, types and conversions, generated keys for an explicit NULL under MySQL, and SQL `list`, whose sorting and paging are the server's.
- SQL timeouts and lost connections between the statement and its commit: a statement is run or refused as a whole, and each transaction alone.
- Cassandra rows: the row marker and tombstones, so a row whose columns are all null still counts as a row.
- Redis: the lengths of TTLs (a key may expire at any time) and character classes in MATCH patterns.
- DynamoDB: item types and sizes, throttling, and writes while a scan is under way.
- MongoDB: objects given through `vars()`, nested values, `list`, the refusal of an empty `$set` by old servers, and the white space that Python's hex decoding tolerates.
- Chroma: `update`, because what the server does with omitted columns is not in the repository; `search` beyond the transposition of its answer; the cached collection handle.
- Checklist: Python's `\d` also knows other digits than the ASCII ones; pre-release, post-release and local version parts are read as their release; the file system, workflow and console parts of the script are not modelled.
