# MailArchiver-NG: a verified model

MailArchiver-NG accepts mail by SMTP, hands it to a durable queue, and lets any number of
workers store, deduplicate, register and index it; a retention worker purges it again. This
project models those services in Dafny and proves what they keep, call by call and over every
interleaving. `dafny verify dfyconfig.toml` checks everything.

| file | models |
|---|---|
| `Catalog.dfy` | the four archive tables as values, the archiving transaction, the purge |
| `Store.dfy` | the worker and retention loops as methods that change the stores in place |
| `Protocol.dfy` | queue, workers, dead letters, replay, retention as one step system |
| `Frames.dfy` | what each kind of step touches |
| `Conservation.dfy` | the inductive invariant of that system; no accepted mail is lost |
| `Provenance.dfy` | bodies, documents, rows and sizes are those of delivered mails |
| `BlobSafety.dfy` | which bodies, contents and links committed messages keep: exact conditions for uploads and purges |
| `Documents.dfy` | what interleaved retention leaves: documents of purged messages, missed lookups |
| `Healing.dfy` | a missing search document can always be written |
| `LegalHold.dfy` | when a legal hold comes in time, and what it protects until it is released |
| `Delivery.dfy` | no poison loop; which mails can be archived and which never |
| `MailQueue.dfy` | SMTP hand-off, consumer loop and dead-letter replay as code |
| `Worker.dfy` | undisturbed runs of the protocol's steps are one call of `process`, or one retention run |
| `Stats.dfy` | the deduplication figures add up, and to what the mails contain |
| `Search.dfy`, `RestoreJob.dfy`, `SearchView.dfy` | cursor search and its two clients |
| `Sealing.dfy`, `Fingerprint.dfy` | the sealed-blob format and the fingerprint pre-image |
| `Lockout.dfy`, `Accounts.dfy` | login lockout over time; an active administrator remains |
| `Visibility.dfy` | three implementations of one visibility rule |
| `Calendar.dfy` | daily index names and monthly partitions |

## How the model reads the code

- A mail is its parsed form: archive hash, raw bytes, size and the digests and sizes of its
  attachments. Mails with one archive hash are one archive.
- The database part of `process` takes effect at its commit, as one step. Everything else a
  worker does (lookup, each put, each upsert, commit, lookup after a violation, index write,
  acknowledgement) is a step of its own, and a crash, a transient error or any other exception
  can come between any two of them.
- Retention takes three steps: dropping indices, selecting a batch, purging it; the row lock of
  an upsert keeps the purge waiting until the worker's transaction ends. Between the last two,
  rows, holds and links may change. A purge decrements the counters of the table but decides by
  the session's own copies of them, loaded with the batch
  (services/retention-worker/retention_worker/main.py:95-105 and 110-117); deleting an
  attachment row takes every link row to it. `seen` keeps the tables as the selection read
  them. A run that dies forgets its batch. There is one retention worker, as
  docker-compose.ha.yml:251-258 deploys it.
- The link rows of a flush are one per attachment of the mail, so a content attached twice
  violates the primary key of `message_attachments`. That happens at the flush, before the
  handler of the unique violation, and counts as an ordinary failure.
- Bodies and attachments share one bucket and its keys are digests. Only `ReadableWithoutPurge`
  assumes that no body key is an attachment digest. A put overwrites, as the storage client does.
- Times are seconds; a day is 86400 of them in UTC. Row ids are fresh and never reused.
- `log`, `purged`, `dropped`, `accepted` and the counters of the step system only record what
  happened; `purged` plays the part of the purge entries in the audit trail.
- AES-GCM, zlib, UTF-8, base64 and `str.lower` are parameters with stated laws.

## What the proofs say about the code

- A mail that carries one content twice is never archived: each attempt is an ordinary failure
  and no copy of it is ever acknowledged (`RepeatedContentNeverArchived`); any other mail can be
  archived from wherever a live copy is (`DistinctCanBeArchived`). `InsertCountsExactly` shows
  the other horn: if the clashing link rows were merged, the counter would be wrong.
- A hold can come too late for its message. Retention reads its batch without locking it and
  deletes by key later, so a hold set in between does not stop the purge (`LateHoldIsLost`). A
  hold keeps the row until it is released if and only if the message is not in a batch already
  selected (`HoldKeepsRowExactly`).
- A purge can take a content from a message outside its batch. The session's copies of the
  counters do not see a message committed since the selection, so a content that only the batch
  linked to then is deleted with all links to it, although the new message shares it and may
  even be on hold (`LateLinkIsTaken`, the run `NoLateLinkIsNeeded`). Survivors keep their links
  if and only if there is no such late link (`SurvivorsKeepLinksExactly`), and a hold keeps the
  links of its message if and only if, besides, none of them is late (`HoldProtectsExactly`).
- A purge can also overtake an upload. It waits for the row lock of each content a worker has
  upserted, so what remains open is the body, and the last content put and not yet upserted
  (`HeldContentIsLast`; the run `UnheldIsNeeded`). As long as nothing is missing before it,
  these are the only two ways a purge harms a committed message, now or later
  (`PurgeIsHarmlessExactly`).
- A body key is the digest of a pre-image, an attachment key the digest of its content
  (services/archiver-worker/archiver_worker/pipeline.py:55-58), and both live in one bucket. An
  attachment whose bytes are the pre-image of an archived mail has that mail's body key, and
  storing it replaces the body, on hold or not (`BodyIsOverwritten`). An upload is harmless
  exactly when its digest is not in use for the other kind (`AttUploadKeepsRowsExactly`,
  `BodyUploadKeepsLinksExactly`), and the same holds across a purge
  (`SurvivorsKeepBlobsExactly`).
- After a unique violation the second lookup finds the winner's row exactly unless retention has
  purged it in between (`LookupFindsWinner`); when it misses, the copy is acknowledged without a
  row (`LookupCanMiss`).
- The comment at services/retention-worker/retention_worker/main.py:125 says that dropping
  indices has already removed the purged documents. A document survives exactly when it is filed
  under the cutoff day, when its index could not be listed or deleted, which is only logged, or
  when a worker writes it after the drop (`DocumentSurvivesExactly`, `LateWriteRemains`).
- libs/mailarchiver_common/mailarchiver_common/queue.py:110 speaks of one retry. A transient
  requeue also sets the redelivered flag, so it uses that retry up. The model follows the code.
- services/archiver-worker/archiver_worker/pipeline.py:168 calls a put of a known key a no-op;
  the storage client overwrites. The model follows the client.
- Stored addresses keep their case while the search filter compares lower-cased ones, so a mail
  from a mixed-case address can be opened and is announced live but is not found
  (`MixedCaseIsMissed`, exact condition in `SearchIsCompleteExactly`).
- Nothing separates the canonical headers from the digests that follow them in the fingerprint,
  and services/archiver-worker/archiver_worker/parser.py:72-73 ends the headers with the Subject
  as the sender wrote it. Two archives share a pre-image exactly when the longer headers are the
  shorter ones followed by the first digests of the other archive, and the rest of its digests
  is the same (`SameArchiveExactly`; `LongerHeadersCollide` is such a pair). With headers of one
  length that never happens (`PreimageCanonical`).
- The count of administrators does not protect against interleaved requests; the protected
  account does, for every table (`LockoutFreeExactly`).

## Model

| member | source | states |
|---|---|---|
| Catalog.UpsertAllAt | services/archiver-worker/archiver_worker/pipeline.py:163-191 | the upserts move each counter by the number of times the mail carries the content; a known content keeps its size, a new one gets that of its first attachment |
| Catalog.InsertCountsExactly | libs/mailarchiver_common/mailarchiver_common/models.py:38-43 | inserting a mail keeps counters equal to links exactly when no content is attached twice |
| Catalog.InsertArchives | services/archiver-worker/archiver_worker/pipeline.py:96-119 | what the four tables gain, in plain terms: one row not on hold, one dedup entry, one link and one reference for each content, new contents with their size |
| Catalog.TransactKeepsInv | services/archiver-worker/archiver_worker/pipeline.py:112-129 | a commit keeps counters and the hash/row bijection; it succeeds exactly for an unknown hash with distinct contents; a repeated content clashes whatever the hash; whoever fails changes no table |
| Catalog.PurgeAllExact | services/retention-worker/retention_worker/main.py:107-132 | with nothing in between, the nested purge loops remove exactly the chosen messages, their links and dedup rows, the contents nobody else uses, and free exactly their bodies and those contents |
| Catalog.PurgeShrinksEligible | services/retention-worker/retention_worker/main.py:95-105 | one run takes its whole batch out of the eligible messages and no other |
| Catalog.RunsPurgeExactly | services/retention-worker/retention_worker/main.py:95-133 | k runs at one cutoff purge min(limit·k, N) of N eligible messages, whichever rows the database picks |
| Catalog.RunsSpare | services/retention-worker/retention_worker/main.py:99-102 | a message on hold or younger than the cutoff survives any number of runs unchanged |
| Catalog.BatchExists | services/retention-worker/retention_worker/main.py:97-103 | a batch of the promised size always exists |
| Catalog.PurgedWereExpired | services/retention-worker/retention_worker/main.py:97-103 | a run takes only messages older than the cutoff and not on hold, and leaves one of them only when it reached the limit |
| Catalog.PurgedCanReturn | services/retention-worker/retention_worker/main.py:120-124 | a purged mail can be archived again under a new row |
| Store.ArchiveStore.StoreAttachments | services/archiver-worker/archiver_worker/pipeline.py:163-191 | the upload and upsert loop has exactly the specified effect on table and bucket |
| Store.PutsStore | services/archiver-worker/archiver_worker/pipeline.py:89-91 | the bucket then holds the mail's own bytes under its fingerprint, unless an attachment has that digest, and each content under its digest; nothing else changes |
| Store.ArchiveStore.LinkAll | libs/mailarchiver_common/mailarchiver_common/models.py:38-43 | the link rows go in exactly when all contents differ |
| Store.ArchiveStore.Transaction | services/archiver-worker/archiver_worker/pipeline.py:93-129 | from first upsert to commit or rollback: all tables new or all as before, blobs stored in both cases |
| Store.ArchiveStore.Process | services/archiver-worker/archiver_worker/pipeline.py:77-134 | a row found by the lookup, stale or not, is only indexed again; otherwise the tables gain exactly this mail or, for a known hash or a repeated content, nothing; the body stored is the mail; the document written is this mail under the id, day and time of its row |
| Store.ArchiveStore.SetLegalHold | services/api/api/main.py:709-724 | the flag becomes what was asked for and nothing else changes; an unknown id is refused |
| Store.ArchiveStore.ReleaseContents | services/retention-worker/retention_worker/main.py:108-117 | the inner loop gives back one reference to each content in table and session, and deletes those whose copy reaches zero, with their links and blobs |
| Store.ArchiveStore.PurgeBatch | services/retention-worker/retention_worker/main.py:107-133 | the outer loop in a session that read older tables, with the purge count and one audit entry per message |
| Store.ArchiveStore.DropOldIndices | services/retention-worker/retention_worker/main.py:50-70 | drops exactly the daily indices before the cutoff day whose deletion works; a failed listing drops nothing |
| Store.ArchiveStore.RunRetention | services/retention-worker/retention_worker/main.py:73-133 | a whole run: nothing when disabled; else exactly min(5000, N) messages that are older than the cutoff and not on hold, with their blobs, whatever became of the indices, and exactly which of their documents survive |
| Conservation.StepKeepsInv | libs/mailarchiver_common/mailarchiver_common/queue.py:115-130 | every step of gateway, worker, consumer, replay and retention keeps the invariant |
| Conservation.AcceptedCopyNeverLost | services/smtp-gateway/smtp_gateway/handler.py:23-37 | for each answer 250 at any point of any run, the copy it stands for leads through its replays to a live copy, or to one acknowledged for a row of this mail whose document exists or was removed by retention; that row was not purged before the mail was accepted |
| Conservation.MissingDocumentHeals | services/archiver-worker/archiver_worker/pipeline.py:82-87 | in every run an archived message without document has a live copy bound to write it, unless retention dropped its index |
| Healing.MissingDocumentCanBeWritten | services/archiver-worker/archiver_worker/pipeline.py:79-87 | from any point of any run, at most four steps of one copy write a missing document, changing no table and no blob, unless retention dropped the index |
| Conservation.OneDocumentPerMessage | services/archiver-worker/archiver_worker/pipeline.py:154-161 | a message has at most one document, in the index of the day it was signed; re-indexing hits the same one |
| Conservation.AcceptedIsFoundOrLive | services/archiver-worker/archiver_worker/pipeline.py:77-134 | with retention idle: committed and indexed, or a live copy is left |
| Conservation.LookupFindsWinner | services/archiver-worker/archiver_worker/pipeline.py:121-129 | in every run, the lookup after a unique violation finds the winner's row exactly unless retention has purged that row |
| Provenance.BodyIsDeliveredMail | services/api/api/mail_access.py:107-109 | in every run, what opens as a body is a delivered mail, byte for byte, under its own fingerprint |
| Provenance.DocumentIsDeliveredMail | services/archiver-worker/archiver_worker/pipeline.py:136-161 | in every run, a document carries id and time of its message and describes a delivered mail with that fingerprint |
| Provenance.RowIsDeliveredMail | services/archiver-worker/archiver_worker/pipeline.py:96-109 | in every run, a row states fingerprint, signing time and size of a delivered mail |
| Provenance.SizeIsStated | services/archiver-worker/archiver_worker/pipeline.py:176-181 | in every run, a content has the size that some committed mail gives for it |
| Provenance.DeadWasRetried | libs/mailarchiver_common/mailarchiver_common/queue.py:124-130 | in every run, whatever is in the dead-letter queue has been redelivered before |
| Documents.MissedLookup | services/archiver-worker/archiver_worker/pipeline.py:121-129 | when the winner is in a selected batch the loser can find nothing, is acknowledged, and leaves neither row nor document |
| Documents.LookupCanMiss | services/archiver-worker/archiver_worker/pipeline.py:119-129 | a concrete run of two workers and one retention run that ends so |
| Documents.DocumentSurvivesExactly | services/retention-worker/retention_worker/main.py:53-70 | after the indices were dropped and through any later steps, purge included: the document of a message past the cutoff is there exactly when it was there and is of the cutoff day or of a day whose index stayed, or when a worker wrote it since |
| Documents.LateWriteRemains | services/retention-worker/retention_worker/main.py:90-133 | a duplicate indexed again between the drop and the purge leaves the document of a purged message, on any day |
| Catalog.PurgeSeenExact | services/retention-worker/retention_worker/main.py:95-133 | a purge by the session's own counters, whatever was committed since the selection: the batch goes, and every link to a content that only the batch linked to at the selection; counters stay right |
| Catalog.SurvivorsKeepLinksExactly | services/retention-worker/retention_worker/main.py:108-117 | messages outside the batch keep their links exactly when none of them was added since the selection to a content that only the batch linked to then |
| Catalog.SeenUndisturbed | services/retention-worker/retention_worker/main.py:107-133 | with nothing in between, that is the purge by the table's counters |
| BlobSafety.SurvivorsKeepBlobsExactly | services/retention-worker/retention_worker/main.py:107-119 | on tables that stand still, a purge frees no body and no content of a surviving message exactly when no digest is used for both kinds across the batch's border |
| BlobSafety.SurvivorsKeepBlobs | services/retention-worker/retention_worker/main.py:95-119 | as long as everything is there, a purge frees no body of a survivor, and a content of one exactly when its link is late |
| BlobSafety.LateLinkIsTaken | services/retention-worker/retention_worker/main.py:110-117 | the message of a late link stays but loses that link and the content |
| BlobSafety.NoLateLinkIsNeeded | services/retention-worker/retention_worker/main.py:95-133 | a concrete run in which a message on hold loses its attachment so |
| BlobSafety.AttUploadKeepsRowsExactly | services/archiver-worker/archiver_worker/pipeline.py:167-170 | storing an attachment keeps all bodies of committed messages exactly when its digest is none of their keys |
| BlobSafety.BodyUploadKeepsLinksExactly | services/archiver-worker/archiver_worker/pipeline.py:89-91 | storing a body keeps all contents of committed messages exactly when its fingerprint is none of their digests |
| BlobSafety.BodyIsOverwritten | services/archiver-worker/archiver_worker/pipeline.py:55-58 | from any point of any run, a mail with such an attachment replaces the body, on hold or not |
| BlobSafety.StepKeepsBlobsExactly | services/archiver-worker/archiver_worker/pipeline.py:77-134 | every kind of step keeps all bodies, links and contents that committed messages have and running uploads count on, exactly when it is safe |
| BlobSafety.PurgeIsHarmlessExactly | services/retention-worker/retention_worker/main.py:95-119 | after a purge, every continuation without another one leaves committed messages with all bodies, links and contents, if and only if there was no late link and the purge freed no key that an upload counts on which can still commit |
| BlobSafety.CommittedMailIsReadable | services/archiver-worker/archiver_worker/pipeline.py:89-94 | in every run of safe steps the body of each committed message opens to a delivered mail with its fingerprint, byte for byte, and all contents of its mail are linked and stored |
| BlobSafety.ReadableWithoutPurge | services/archiver-worker/archiver_worker/pipeline.py:89-119 | the same for every run without a purge in which no fingerprint of a mail is the digest of a content of one |
| BlobSafety.HeldPurgeLosesBlob | services/archiver-worker/archiver_worker/pipeline.py:91-129 | whenever a purge frees a key that such an upload counts on, some purge-free continuation commits a message that misses that blob |
| BlobSafety.HeldContentIsLast | services/archiver-worker/archiver_worker/pipeline.py:167-188 | of the contents of an upload, a purge can only have freed the last one put and not yet upserted |
| LegalHold.HoldKeepsRowExactly | services/api/api/main.py:709-724 | from any point of any run, a hold keeps the row through all purges and interleavings until it is released, if and only if the message is not in a batch already selected and not yet purged |
| LegalHold.HoldProtectsExactly | services/api/api/main.py:709-724 | it keeps the row and all its links so, if and only if besides none of its links is late |
| LegalHold.LateLinkIsLost | services/retention-worker/retention_worker/main.py:95-133 | a late link can be taken whatever hold its message has |
| LegalHold.LateHoldIsLost | services/retention-worker/retention_worker/main.py:95-133 | a message in a selected batch is purged although a hold was set before |
| LegalHold.HoldSetsFlag | services/api/api/main.py:709-724 | from any point of any run, setting or releasing a hold makes the flag what was asked for and changes nothing else |
| LegalHold.ReleasedIsPurged | services/retention-worker/retention_worker/main.py:97-103 | from any point of any run, a released message that is old enough can be selected, is in every batch when at most 5000 are, and its purge can follow |
| LegalHold.HoldKeepsBlobs | services/api/api/main.py:709-724 | a hold that is not too late keeps each blob the message still has, one by one, the body as a delivered mail, unless its link is late or its digest is used for the other kind by some mail |
| LegalHold.HeldBodyExactly | services/retention-worker/retention_worker/main.py:99-119 | a step takes the body of a protected message exactly when it uploads an attachment of that digest or purges the last link to one |
| LegalHold.HeldAttExactly | services/retention-worker/retention_worker/main.py:95-119 | a step takes a content of a held message exactly when it stores or purges a body of that fingerprint, or is the purge and the link is late |
| BlobSafety.UnheldIsNeeded | services/retention-worker/retention_worker/main.py:115-117 | a concrete run in which the purge comes between a put and its upsert and a committed message misses the blob |
| Delivery.DeliveriesBounded | libs/mailarchiver_common/mailarchiver_common/queue.py:115-130 | from any state, deliveries are at most the work left plus two per published mail plus one per transient error or crash, by the counters and by counting steps |
| Delivery.NoPoisonLoop | libs/mailarchiver_common/mailarchiver_common/queue.py:115-130 | in every run, deliver steps are at most twice the publish steps plus the requeue steps |
| Delivery.RepeatedContentNeverArchived | services/archiver-worker/archiver_worker/pipeline.py:112-120 | a mail with one content twice never gets a row, none of its copies is ever acknowledged, and a live one is always left |
| Delivery.DistinctCanBeArchived | services/archiver-worker/archiver_worker/pipeline.py:77-134 | from any point of any run, a live copy of any other mail can still be archived and indexed |
| MailQueue.RawMail.HandleData | services/smtp-gateway/smtp_gateway/handler.py:23-37 | 552 exactly when too large, 451 exactly when publishing failed, 250 exactly when the mail is confirmed in the queue |
| MailQueue.RawMail.Settle | libs/mailarchiver_common/mailarchiver_common/queue.py:117-130 | success acknowledges; a transient error always returns the copy, marked; any other failure does so the first time and makes a dead letter the second |
| MailQueue.RawMail.ConsumeRawMail | libs/mailarchiver_common/mailarchiver_common/queue.py:115-130 | the consumer loop ends with every copy acknowledged or dead, within the delivery bound; all acknowledged when all succeed, all dead when all fail |
| MailQueue.RawMail.DlqReplay | services/api/api/main.py:421-440 | wherever the connection breaks, the call is a run of the protocol's replay steps and no dead letter disappears without a fresh queued copy of its own |
| Worker.DuplicateAlone | services/archiver-worker/archiver_worker/pipeline.py:79-87 | an undisturbed duplicate only rewrites the document of the original row |
| Worker.RaceLostAlone | services/archiver-worker/archiver_worker/pipeline.py:116-134 | the loser of the unique-key race changes no table and writes the document of the winner's row |
| Worker.NewMailAlone | services/archiver-worker/archiver_worker/pipeline.py:77-134 | the undisturbed worker steps end in the state that one call of `Process` produces |
| Worker.DeliveredMailIsArchived | services/archiver-worker/archiver_worker/pipeline.py:51-134 | from queue to acknowledgement, in plain terms: what tables, bucket and index gain for a new mail |
| Worker.DeliveredDuplicateIsIndexed | services/archiver-worker/archiver_worker/pipeline.py:77-87 | the same for a known one: only its document is written again |
| Worker.FailureIsRetriedOnce | libs/mailarchiver_common/mailarchiver_common/queue.py:124-130 | a first failure brings the copy back marked, a second one makes it a dead letter |
| Worker.RetentionAlone | services/retention-worker/retention_worker/main.py:50-133 | the undisturbed retention steps do what `RunRetention` does: which indices, rows, contents and documents go, and exactly which documents of purged messages stay |
| Stats.ReferencesAreLinks | services/api/api/main.py:813-833 | `references` is the number of mail-attachment links |
| Stats.SizesAddUp | services/api/api/main.py:814-835 | stored plus saved bytes are the volume without deduplication |
| Stats.EveryRunAddsUp | services/api/api/main.py:809-835 | in every run counters equal links, hashes are unique, and both figures add up |
| Stats.FiguresAreOfMails | services/api/api/main.py:809-835 | in every run without a late link, if the mails agree on the size of each content: stored bytes are those of the distinct contents, stored plus saved those of all attachments of the committed mails |
| Stats.TotalSizeIsOfMails | services/api/api/main.py:797-803 | in every run the total message size is that of the mails |
| Search.PageIsPrefix | services/api/api/search.py:96-133 | a page is sorted, lies after the cursor, and leaves out only what comes later |
| Search.PageInPlainTerms | services/api/api/search.py:96-133 | latest date first and higher id first within a date, strictly after the cursor, complete up to the page size; total capped at 10000 |
| Search.FindAtRow | services/api/api/search.py:111-115 | on a static index, searching after row i - 1 returns the rows from i |
| RestoreJob.WholePage | services/api/api/main.py:614-632 | after each page everything present throughout down to the cursor has been delivered; a short page completes the perimeter |
| RestoreJob.TransferJob.Transfer | services/api/api/main.py:607-635 | the job ends, sends newest first and nothing twice, never records more than delivered nor lags by more than a page, and when done has sent all that was present throughout; on a static index exactly the perimeter |
| RestoreJob.TransferJob.constructor | services/api/api/transfer_jobs.py:30-42 | the announced total is min(size, 10000) |
| SearchView.PagingIsOffsets | services/web/src/components/SearchView.vue:36-84 | after any clicks on a static index page i shows rows 50i to 50i + 49; failures never spoil the stack |
| SearchView.NextReaches | services/web/src/components/SearchView.vue:72-84 | n clicks on next reach page n; it is empty exactly when the total is 50n |
| SearchView.SearchPanel.DoRun | services/web/src/components/SearchView.vue:36-70 | a new search restores stack and page whatever the refs held |
| SearchView.SearchPanel.NextPage | services/web/src/components/SearchView.vue:79-84 | moves to the next offset page when there is one |
| SearchView.SearchPanel.PrevPage | services/web/src/components/SearchView.vue:73-78 | moves back to the previous offset page |
| Sealing.ReadBackExactly | libs/mailarchiver_common/mailarchiver_common/crypto.py:78-94 | reading what was written returns the blob exactly when the nonce has 12 bytes or ends the input early |
| Sealing.StoredLayout | libs/mailarchiver_common/mailarchiver_common/crypto.py:78-84 | the bytes of a stored blob: big-endian length, wrapped key, nonce, ciphertext; a longer key cannot be written |
| Sealing.WriteBackExactly | libs/mailarchiver_common/mailarchiver_common/crypto.py:86-94 | writing what was read returns the bytes exactly when the announced key fits; parsing fails exactly below two bytes |
| Sealing.Parse | libs/mailarchiver_common/mailarchiver_common/crypto.py:86-94 | the parser with a running offset is that function |
| Sealing.SealRoundTrip | libs/mailarchiver_common/mailarchiver_common/crypto.py:103-123 | every plaintext survives seal, serialize, deserialize and unseal |
| Sealing.TamperingIsDetected | libs/mailarchiver_common/mailarchiver_common/crypto.py:78-123 | bytes that keep length and wrapped data key of a stored blob and still unseal are, in all the rest, an encryption under that blob's own data key |
| Sealing.SecretRoundTrip | libs/mailarchiver_common/mailarchiver_common/crypto.py:129-135 | every secret survives encryption, and its token holds a sealed blob of it |
| Fingerprint.FeedHash | libs/mailarchiver_common/mailarchiver_common/crypto.py:153-160 | the update loop feeds the pre-image |
| Fingerprint.SortedUnique | libs/mailarchiver_common/mailarchiver_common/crypto.py:158 | sorting forgets the order of the attachments |
| Fingerprint.SameArchiveExactly | libs/mailarchiver_common/mailarchiver_common/crypto.py:153-160 | two archives share a pre-image exactly when the longer headers are the shorter ones followed by the other archive's first digests, and the remaining digests agree |
| Fingerprint.PreimageCanonical | libs/mailarchiver_common/mailarchiver_common/crypto.py:153-160 | so for headers of one length, pre-images agree exactly when headers, body and the multiset of attachment digests agree |
| Fingerprint.LongerHeadersCollide | libs/mailarchiver_common/mailarchiver_common/crypto.py:156-159 | two different archives with one pre-image, for any headers, body and attachment |
| Lockout.UserRow.Authenticate | services/api/api/users.py:81-115 | granted exactly for an active, unlocked account with the right password; locked exactly while the lock runs; nothing is compared or changed for an inactive or locked one; success clears the counters, failure counts, the limit starts a lock |
| Lockout.BooksBalance | services/api/api/users.py:110-115 | wrong passwords checked are full rounds plus the open one, and the k-th lock ends no earlier than k lock lengths in |
| Lockout.LockoutBound | services/api/api/users.py:81-115 | within a span T at most max·(T/L + 1) wrong passwords are checked and the counter stays below the limit |
| Lockout.BoundIsTight | services/api/api/users.py:92-114 | the bound is reached for every number of rounds |
| Accounts.UserRepo.CreateUser | services/api/api/users.py:138-172 | exactly for an acceptable request with a free name one active row with the name and role asked for appears; every other row stays |
| Accounts.UserRepo.Serve | services/api/api/main.py:756-788 | one undisturbed request is refused exactly for a missing row, the protected name or the last active administrator; else it deactivates or deletes that row alone, and an active administrator is left |
| Accounts.UserRepo.ActivateUser | services/api/api/main.py:756-772 | activation needs no check and sets one flag |
| Accounts.SerialKeepsAdmin | services/api/api/main.py:764-786 | serialised requests keep an active administrator even without a protected account |
| Accounts.UserRepo.SeedDefaultAdmin | services/api/api/fixtures.py:27-33 | an empty table gets exactly one row, the protected administrator, active; any other table, and an empty name or password, change nothing |
| Accounts.SeededAdminStays | services/api/api/fixtures.py:27-33 | from an empty seeded table every interleaving keeps the protected administrator active |
| Accounts.AllCanGo | services/api/api/main.py:768-786 | unprotected administrators can all be deactivated by interleaved requests |
| Accounts.LockoutFreeExactly | services/api/api/main.py:756-788 | for every table and all requests under way, every interleaving keeps an active administrator exactly when the protected account is one and no checked request is about to change it |
| Visibility.EventsMatchAccess | services/api/api/main.py:253-277 | live events and message access agree for every account and mail |
| Visibility.EventSeenExactly | services/api/api/main.py:253-277 | an administrator sees every event, an auditor those naming an audited address, anyone else those naming the own address, in any case of letters |
| Visibility.AccessAndHitExactly | services/api/api/search.py:16-34 | under a scope: access when an address of it names the mail in any case, a search hit when its lower case is stored |
| Visibility.HitsAreAccessible | services/api/api/mail_access.py:81-91 | every search hit can be opened |
| Visibility.SearchIsCompleteExactly | services/api/api/search.py:16-34 | search finds all that can be opened, for every scope, exactly when each stored address is also stored in lower case |
| Visibility.MixedCaseIsMissed | services/api/api/search.py:22-33 | a mixed-case sender is visible everywhere but in search |
| Visibility.NoneAndEmpty | services/api/api/main.py:253-264 | no restriction sees all, an empty scope sees nothing, in all three places |
| Calendar.ParserRecoversDay | services/retention-worker/retention_worker/main.py:59-64 | the retention parser recovers the day the indexer printed |
| Calendar.NameOfFifthOfMarch | services/archiver-worker/archiver_worker/indexer.py:65-71 | the form of a timestamp and of the index name made from it |
| Calendar.SameIndexSameDay | services/archiver-worker/archiver_worker/indexer.py:65-71 | two documents share an index exactly when they share a day |
| Calendar.UnknownIsKept | services/archiver-worker/archiver_worker/indexer.py:68 | the catch-all index is never dropped |
| Calendar.DropIsSound | services/retention-worker/retention_worker/main.py:58-67 | an index is dropped only when all in it is past the cutoff; what is past it and kept was signed on the cutoff day |
| Calendar.AddMonthsMoves | libs/mailarchiver_common/mailarchiver_common/models.py:297-300 | adding months never skips or repeats one; the day is kept or, if the month is too short, becomes its last |
| Calendar.PartitionIsMonth | libs/mailarchiver_common/mailarchiver_common/models.py:269-280 | a partition holds exactly the days of its month |
| Calendar.Schema.Startup | libs/mailarchiver_common/mailarchiver_common/models.py:284-300 | one startup ensures the current month and the next two |
| Calendar.OnePartitionPerDay | libs/mailarchiver_common/mailarchiver_common/models.py:269-300 | after any startups a day lies in at most one partition, and in one exactly when a startup fell in its month or the two before |

## Left out

- Library internals: SHA-256, AES-GCM, Ed25519, zlib, base64, bcrypt, JWT and LDAP.
- MIME parsing and the clock as a substitute for a missing Date; sort keys are taken as stable.
- The order of statements inside one database transaction, autoflush and deadlocks between upserts; a deadlock is one more transient error.
- A purge that stops between deleting a blob and committing: blobs go first, so the purge is not crash-atomic in the code.
- The purge of the dead-letter queue by an administrator, which discards mail on purpose.
- IMAP and POP3 collection and the import of files; both publish like the SMTP gateway.
- The live event published after indexing, its stream, and HTTP routing, metrics, settings and rendering.
- Object Lock and versioning of the bucket, refresh delays of the index, replication of the queue and its own delivery limit.
- Partitions that clash with rows already in the default partition.
- LegalHold.HoldKeepsRowExactly: two retention workers at once, and holds set while the purge of a selected batch is itself under way, which fall on one side of it here.
- BlobSafety.LateLinkIsTaken: a link committed between the reading of an attachment's links and the deletion of its row, inside one flush; the foreign key then aborts the purge, with the blob already gone.
- Worker.RetentionAlone: a purge that has to wait for row locks; `PurgeComes` shows that it can always come to its turn.
- MailQueue.RawMail.DlqReplay: takes dead letters in the order of their copies, because the order inside the DLQ has no effect on what is proved.
- MailQueue.RawMail.ConsumeRawMail: one consumer on a queue nobody else fills; many workers are the subject of the step system.
- RestoreJob.TransferJob.Transfer: one execution; a job the broker delivers again starts over and sends again.
- RestoreJob.TransferJob.Transfer: assumes that the documents existing during the run are finitely many, which termination needs.
- SearchView.SearchPanel.NextPage: two loads of one component in flight at the same time.
- Calendar.ParserRecoversDay: index names with one-digit months or days, which strptime would also accept and no indexer prints.
- Lockout.LockoutBound: attempts on one account are serialised; two overlapping requests could both read the same counter.
- Accounts.UserRepo.CreateUser: trimming and lower-casing of audited addresses and the password hash.
